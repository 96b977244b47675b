/** The decisions of the agent's operations as functions of its state, and what they keep. */
module AgentOperations {
  import opened Words
  import opened Events
  import opened Maps
  import opened Live
  import opened ControlPlane
  import opened Planning
  import opened ConnectionUpdate
  import opened AgentState
  import opened AgentSteps
  import opened Replay

  const MAX_CONTEXTS: nat := 1024
  const MAX_CONNECTIONS: nat := 4096
  const MAX_FLOWS: nat := 256

  datatype Refusal =
    Invalid | AddressUnknown | DeletionPending | SpecChanged | StaleOrConflicting | CapacityReached | FlowTaken

  /** Why an assignment is refused, if it is. */
  function Verdict(contexts: Contexts, ifs: Interfaces, raw: Assignment): Option<Refusal> {
    var a := Canonical(raw);
    if !ValidAssignment(raw) then Some(Invalid)
    else if a.spec.legA !in ifs || a.spec.legB !in ifs then Some(AddressUnknown)
    else if a.spec.id in contexts then
      var old' := contexts[a.spec.id];
      if old'.deleting then Some(DeletionPending)
      else if old'.assignment.spec != a.spec then Some(SpecChanged)
      else if a.generation < old'.assignment.generation
              || (a.generation == old'.assignment.generation && a != old'.assignment) then Some(StaleOrConflicting)
      else None
    else if |contexts| >= MAX_CONTEXTS then Some(CapacityReached)
    else if exists other :: other in contexts && contexts[other].assignment.spec.flow == a.spec.flow then Some(FlowTaken)
    else None
  }

  /** Everything an assignment is refused for, with the state on its fields. */
  lemma VerdictOnFields(contexts: Contexts, ifs: Interfaces, raw: Assignment)
    ensures var a, why := Canonical(raw), Verdict(contexts, ifs, raw);
      var known := ValidAssignment(raw) && a.spec.legA in ifs && a.spec.legB in ifs;
      && (why == Some(Invalid) <==> !ValidAssignment(raw))
      && (why == Some(AddressUnknown) <==> ValidAssignment(raw) && (a.spec.legA !in ifs || a.spec.legB !in ifs))
      && (known && a.spec.id in contexts ==>
            var last := contexts[a.spec.id];
            && (why == Some(DeletionPending) <==> last.deleting)
            && (why == Some(SpecChanged) <==> !last.deleting && last.assignment.spec != a.spec)
            && (why == None <==> !last.deleting && last.assignment.spec == a.spec
                                 && (a.generation > last.assignment.generation || a == last.assignment))
            && why != Some(CapacityReached) && why != Some(FlowTaken))
      && (known && a.spec.id !in contexts ==>
            && (why == Some(CapacityReached) <==> |contexts| >= 1024)
            && (why == None <==> |contexts| < 1024 && forall other :: other in contexts ==>
                  var flow := contexts[other].assignment.spec.flow;
                  flow.destinationAddress != a.spec.flow.destinationAddress || flow.destinationPort != a.spec.flow.destinationPort)
            && (why.Some? ==> why.value in {CapacityReached, FlowTaken}))
  {
    hide ValidAssignment, Canonical;
  }

  function WithContext(v: Agent, a: Assignment): Agent {
    v.(contexts := v.contexts[a.spec.id := Context(a, false)], accepted := v.accepted + {a})
  }

  /** The assignment may take its place: it is admitted, keeps the flows distinct, and
      replaces at most an older or equal assignment of the same context. */
  ghost predicate Fits(contexts: Contexts, ifs: Interfaces, a: Assignment) {
    && Admitted(a, ifs)
    && (forall other :: other in contexts && other != a.spec.id ==>
          contexts[other].assignment.spec.flow != a.spec.flow)
    && (a.spec.id in contexts ==>
          var last := contexts[a.spec.id].assignment;
          && last.spec == a.spec && last.generation <= a.generation
          && (last.generation == a.generation ==> last == a))
  }

  lemma AcceptedFits(contexts: Contexts, ifs: Interfaces, raw: Assignment)
    requires ContextsOk(contexts, ifs) && Verdict(contexts, ifs, raw) == None
    ensures Fits(contexts, ifs, Canonical(raw))
  {
    AdmittedCanonical(raw, ifs);
    hide ValidAssignment, Admitted;
  }

  lemma PutKeepsToken(v: Agent, a: Assignment, t: U32)
    requires TokenOk(v, t) && Fits(v.contexts, v.ifs, a)
    ensures TokenOk(WithContext(v, a), t)
  {
    hide SlotOf, Provenance, FlowsSeen, Admitted, Derived, TrimmedName;
    if Owned(v, t) { IssuedGrows(v.accepted, a, v.contexts[v.connections[t].owner].assignment, SlotAt(v, t).policy); }
    if Owned(v, t) && v.connections[t].owner == a.spec.id {
      SameLegs(v.journal, v.contexts[a.spec.id].assignment, a, SlotAt(v, t).paths);
    }
  }

  lemma IssuedGrows(accepted: set<Assignment>, a: Assignment, owners: Assignment, policy: Option<MapPolicy>)
    requires Issued(accepted, owners, policy)
    ensures Issued(accepted + {a}, owners, policy)
  {
    hide Derived;
  }

  lemma PutKeepsContexts(contexts: Contexts, ifs: Interfaces, a: Assignment)
    requires ContextsOk(contexts, ifs) && Fits(contexts, ifs, a)
    ensures ContextsOk(contexts[a.spec.id := Context(a, false)], ifs)
  {
    hide Admitted;
  }

  lemma PutKeepsInv(v: Agent, raw: Assignment)
    requires Inv(v) && Verdict(v.contexts, v.ifs, raw) == None
    ensures Inv(WithContext(v, Canonical(raw)))
  {
    var a := Canonical(raw);
    AcceptedFits(v.contexts, v.ifs, raw);
    PutKeepsContexts(v.contexts, v.ifs, a);
    hide TokenOk, SlotOf, Admitted, Verdict, ContextsOk, Canonical, Fits;
    forall t: U32
      ensures TokenOk(WithContext(v, a), t)
    {
      PutKeepsToken(v, a, t);
    }
  }

  lemma SameLegs(journal: seq<PMEvent>, a: Assignment, b: Assignment, paths: Paths)
    requires a.spec == b.spec && Provenance(journal, a, paths)
    ensures Provenance(journal, b, paths)
  {
    forall k | k in paths
      ensures Observed(journal, b, k, paths[k].access)
    {
      assert Observed(journal, a, k, paths[k].access);
      var e :| e in Lifetime(journal, k.conn.token) && Opening(e) && e.localId == k.localId && e.remoteId == k.remoteId
               && LegOf(a, e.localAddress) == Some(paths[k].access);
      assert LegOf(b, e.localAddress) == LegOf(a, e.localAddress);
    }
  }

  function Deleting(v: Agent, id: string): Agent {
    if id in v.contexts then v.(contexts := v.contexts[id := v.contexts[id].(deleting := true)]) else v
  }

  lemma DeleteKeepsInv(v: Agent, id: string)
    requires Inv(v)
    ensures Inv(Deleting(v, id))
  {
    hide SlotOf, NotAhead, Issued, Provenance, FlowsSeen, Admitted;
    forall t: U32
      ensures TokenOk(Deleting(v, id), t)
    {
      assert TokenOk(v, t);
    }
  }

  // ---- observations ----

  /** Events that cannot be recorded. */
  predicate Refuses(connections: Connections, e: PMEvent) {
    e.kind != CLOSED &&
    if e.token !in connections then e.kind != SUB_CLOSED && |connections| >= MAX_CONNECTIONS
    else
      var c := connections[e.token];
      || c.closed
      || (e.kind == ESTABLISHED && c.initial.Some? && EventFlow(c.initial.value) != EventFlow(e))
      || (e.kind != SUB_CLOSED && |c.flows| >= MAX_FLOWS && EventFlow(e) !in c.flows)
  }

  predicate Ignores(connections: Connections, e: PMEvent) {
    !Relevant(e.kind) || (e.kind == SUB_CLOSED && e.token !in connections)
  }

  const NEW_CONNECTION: Connection := Connection(None, map[], "", false, false)

  function Recorded(connections: Connections, e: PMEvent): Connections {
    if e.kind == CLOSED then
      if e.token in connections then connections[e.token := connections[e.token].(closed := true)] else connections
    else
      var c := if e.token in connections then connections[e.token] else NEW_CONNECTION;
      connections[e.token := c.(
        initial := if e.kind == ESTABLISHED then Some(e) else c.initial,
        flows := if e.kind == SUB_CLOSED then c.flows - {EventFlow(e)} else c.flows[EventFlow(e) := e])]
  }

  /** Which events are ignored, and which are refused, by number and field. */
  lemma IgnoresOnFields(connections: Connections, e: PMEvent)
    ensures Ignores(connections, e) <==> e.kind !in {2, 3, 10, 11} || (e.kind == 11 && e.token !in connections)
  {
  }

  lemma RefusesOnFields(connections: Connections, e: PMEvent)
    requires !Ignores(connections, e)
    ensures e.kind == 3 ==> !Refuses(connections, e)
    ensures e.kind != 3 && e.token !in connections ==> (Refuses(connections, e) <==> |connections| >= 4096)
    ensures e.kind != 3 && e.token in connections ==> (Refuses(connections, e) <==> RefusedBy(connections[e.token], e))
  {
    if e.token in connections && connections[e.token].initial.Some? {
      SameFlowExactly(connections[e.token].initial.value, e);
    }
  }

  /** A tracked connection refuses an event once it is closed, an establishment of another
      subflow than its initial one, and a 257th subflow. */
  predicate RefusedBy(c: Connection, e: PMEvent) {
    || c.closed
    || (e.kind == 2 && c.initial.Some? && OtherSubflow(c.initial.value, e))
    || (e.kind in {2, 10} && |c.flows| >= 256 && FlowOf(e) !in c.flows)
  }

  /** The six fields that name a subflow. */
  function FlowOf(e: PMEvent): ObservedFlow {
    ObservedFlow(e.localAddress, e.destinationAddress, e.localPort, e.destinationPort, e.localId, e.remoteId)
  }

  predicate OtherSubflow(e: PMEvent, f: PMEvent) {
    || e.localAddress != f.localAddress || e.destinationAddress != f.destinationAddress
    || e.localPort != f.localPort || e.destinationPort != f.destinationPort
    || e.localId != f.localId || e.remoteId != f.remoteId
  }

  /** What recording an event does: an opening adds its subflow, an establishment names the
      initial one, a subflow's close takes away that one, a close marks the connection; other
      subflows and other connections stay as they are, and so do owner and error. */
  lemma RecordedOnFields(connections: Connections, e: PMEvent)
    requires !Ignores(connections, e) && !Refuses(connections, e)
    ensures var after := Recorded(connections, e);
      && (forall t :: t != e.token ==> (t in after <==> t in connections) && (t in after ==> after[t] == connections[t]))
      && (e.kind == 3 ==> (e.token in after <==> e.token in connections))
      && (e.kind == 3 && e.token in after ==> after[e.token] == connections[e.token].(closed := true))
      && (e.kind != 3 ==>
            && e.token in after
            && var c := if e.token in connections then connections[e.token] else Connection(None, map[], "", false, false);
               var d := after[e.token];
               && d.owner == c.owner && d.closed == c.closed && d.failed == c.failed
               && d.initial == (if e.kind == 2 then Some(e) else c.initial)
               && (if e.kind == 11 then FlowOf(e) !in d.flows else FlowOf(e) in d.flows && d.flows[FlowOf(e)] == e)
               && forall f :: f != FlowOf(e) ==> (f in d.flows <==> f in c.flows) && (f in d.flows ==> d.flows[f] == c.flows[f]))
  {
  }

  function WithEvent(v: Agent, e: PMEvent): Agent {
    v.(journal := v.journal + [e], connections := Recorded(v.connections, e))
  }

  lemma LifetimeStep(journal: seq<PMEvent>, e: PMEvent, token: U32)
    ensures Lifetime(journal + [e], token) ==
      var before := Lifetime(journal, token);
      if e.token != token then before
      else if !EndsClosed(before) then before + [e]
      else if e.kind == CLOSED then before
      else [e]
  {
    assert (journal + [e])[..|journal + [e]| - 1] == journal;
  }

  lemma ProvenanceGrows(journal: seq<PMEvent>, more: seq<PMEvent>, token: U32, a: Assignment, paths: Paths)
    requires Provenance(journal, a, paths) && forall k :: k in paths ==> k.conn.token == token
    requires forall e :: e in Lifetime(journal, token) ==> e in Lifetime(more, token)
    ensures Provenance(more, a, paths)
  {
    forall k | k in paths
      ensures Observed(more, a, k, paths[k].access)
    {
      assert Observed(journal, a, k, paths[k].access);
      var f :| f in Lifetime(journal, token) && Opening(f) && f.localId == k.localId && f.remoteId == k.remoteId
               && LegOf(a, f.localAddress) == Some(paths[k].access);
      assert f in Lifetime(more, token);
    }
  }

  /** A refused establishment may change the initial tuple for one of the same flow. */
  lemma InitialKeepsInv(v: Agent, token: U32, c: Connection)
    requires Inv(v) && token in v.connections && c == v.connections[token].(initial := c.initial)
    requires v.connections[token].initial.Some? ==>
      c.initial.Some? && EventFlow(c.initial.value) == EventFlow(v.connections[token].initial.value)
    ensures Inv(v.(connections := v.connections[token := c]))
  {
    var w := v.(connections := v.connections[token := c]);
    assert TokenOk(v, token);
    assert OnlyToken(v, w, token);
    assert TokenOk(w, token) by {
      hide SlotOf, Admitted, Justified, FlowsSeen, Lifetime;
    }
    InvAfter(v, w, token);
  }

  /** An event leaves the tokens of other connections as they were. */
  lemma OthersUnaffected(v: Agent, e: PMEvent, t: U32)
    requires TokenOk(v, t) && t != e.token
    ensures TokenOk(WithEvent(v, e), t)
  {
    LifetimeStep(v.journal, e, t);
    hide SlotOf, NotAhead, Lifetime, EventFlow, NamesTrimmed;
    if Owned(v, t) {
      SlotIsOfToken(v, t);
      ProvenanceGrows(v.journal, v.journal + [e], t, v.contexts[v.connections[t].owner].assignment, SlotAt(v, t).paths);
    }
    hide Provenance;
  }

  lemma SlotIsOfToken(v: Agent, t: U32)
    ensures forall k :: k in SlotAt(v, t).paths ==> k.conn.token == t
  {
  }

  /** The lifetime of the event's connection grows by the event, unless it starts anew or is
      closed already. */
  lemma LifetimeGrows(v: Agent, e: PMEvent)
    requires TokenOk(v, e.token) && !Ignores(v.connections, e) && !Refuses(v.connections, e)
    ensures e.token in v.connections ==>
      forall f :: f in Lifetime(v.journal, e.token) ==> f in Lifetime(v.journal + [e], e.token)
    ensures e.kind != CLOSED ==>
      e in Lifetime(v.journal + [e], e.token) && !EndsClosed(Lifetime(v.journal + [e], e.token))
  {
    LifetimeStep(v.journal, e, e.token);
    hide Lifetime, FlowsSeen, SlotOf, Justified, EventFlow;
  }

  lemma FlowsStaySeen(v: Agent, e: PMEvent, c: Connection)
    requires TokenOk(v, e.token) && !Ignores(v.connections, e) && !Refuses(v.connections, e)
    requires e.token in Recorded(v.connections, e) && c == Recorded(v.connections, e)[e.token]
    ensures FlowsSeen(v.journal + [e], e.token, c.flows)
  {
    LifetimeGrows(v, e);
    hide SlotOf, Admitted, Justified, Lifetime;
    forall f | f in c.flows
      ensures c.flows[f] in Lifetime(v.journal + [e], e.token) && Opening(c.flows[f])
    {
      if e.token in v.connections && f in v.connections[e.token].flows && c.flows[f] == v.connections[e.token].flows[f] {
        assert c.flows[f] in v.connections[e.token].flows.Values;
      }
    }
  }

  /** The event's own connection: the record follows the event, the owner stays. */
  lemma ObservedTokenOk(v: Agent, e: PMEvent)
    requires TokenOk(v, e.token) && !Ignores(v.connections, e) && !Refuses(v.connections, e)
    ensures TokenOk(WithEvent(v, e), e.token)
  {
    var w := WithEvent(v, e);
    if e.token in w.connections {
      LifetimeGrows(v, e);
      FlowsStaySeen(v, e, w.connections[e.token]);
      if Owned(v, e.token) {
        SlotIsOfToken(v, e.token);
        ProvenanceGrows(v.journal, w.journal, e.token, v.contexts[v.connections[e.token].owner].assignment,
                        SlotAt(v, e.token).paths);
      }
    }
    assert SlotAt(w, e.token) == SlotAt(v, e.token);
    hide SlotOf, NotAhead, Provenance, FlowsSeen, Lifetime, NamesTrimmed;
  }

  lemma ObserveKeepsInv(v: Agent, e: PMEvent)
    requires Inv(v) && !Ignores(v.connections, e) && !Refuses(v.connections, e)
    ensures Inv(WithEvent(v, e))
  {
    hide TokenOk, SlotOf, ContextsOk, Refuses, Ignores, Recorded;
    forall t: U32
      ensures TokenOk(WithEvent(v, e), t)
    {
      if t == e.token {
        ObservedTokenOk(v, e);
      } else {
        OthersUnaffected(v, e, t);
      }
    }
  }

  /** A recorded establishment or close settles the initial tuple again. */
  function Relearned(lossy: set<U32>, e: PMEvent): set<U32> {
    if e.kind == ESTABLISHED || e.kind == CLOSED then lossy - {e.token} else lossy
  }

  /** Recording an event is one step of the replay. */
  lemma ObserveFollows(v: Agent, e: PMEvent, lossy: set<U32>)
    requires FollowsReplay(v, lossy) && Relevant(e.kind)
    requires !Ignores(v.connections, e) && !Refuses(v.connections, e)
    ensures FollowsReplay(WithEvent(v, e), Relearned(lossy, e))
  {
    var w := WithEvent(v, e);
    forall t: U32
      ensures TokenFollows(w, t, t in Relearned(lossy, e))
    {
      assert TokenFollows(v, t, t in lossy);
      ReplayedStep(v.journal, e, t);
      hide Replayed, EventFlow;
    }
  }

  /** An establishment refused for lack of subflow capacity has already replaced the initial
      tuple; nothing else of a refused event stays. */
  function AfterRefusal(connections: Connections, e: PMEvent): Connections {
    if e.token in connections && e.kind == ESTABLISHED && !connections[e.token].closed
       && (connections[e.token].initial.Some? ==> EventFlow(connections[e.token].initial.value) == EventFlow(e))
    then connections[e.token := connections[e.token].(initial := Some(e))]
    else connections
  }

  /** An establishment of the initial subflow over again, or of a connection that had none,
      refused because its connection has too many subflows, is the new initial tuple all the
      same; no other refused event leaves anything. */
  lemma AfterRefusalOnFields(connections: Connections, e: PMEvent)
    requires !Ignores(connections, e) && Refuses(connections, e)
    ensures var after := AfterRefusal(connections, e);
      if e.kind == 2 && e.token in connections && !connections[e.token].closed
         && (connections[e.token].initial.None? || !OtherSubflow(connections[e.token].initial.value, e))
      then |connections[e.token].flows| >= 256 && after == connections[e.token := connections[e.token].(initial := Some(e))]
      else after == connections
  {
    if e.token in connections && connections[e.token].initial.Some? {
      SameFlowExactly(connections[e.token].initial.value, e);
    }
  }

  /** The connections whose initial tuple no longer comes from an accepted event. */
  function AlsoLost(lossy: set<U32>, connections: Connections, e: PMEvent): set<U32> {
    if AfterRefusal(connections, e) == connections then lossy else lossy + {e.token}
  }

  lemma RefusalKeeps(v: Agent, e: PMEvent, lossy: set<U32>)
    requires Inv(v) && AllSynced(v) && FollowsReplay(v, lossy) && Refuses(v.connections, e)
    ensures var w := v.(connections := AfterRefusal(v.connections, e));
      Inv(w) && AllSynced(w) && FollowsReplay(w, AlsoLost(lossy, v.connections, e))
  {
    var w := v.(connections := AfterRefusal(v.connections, e));
    if w != v {
      assert TokenOk(v, e.token);
      InitialKeepsInv(v, e.token, w.connections[e.token]);
    }
    hide Inv, SlotOf, SlotTarget, Admitted, EventFlow, Replayed;
    forall t: U32
      ensures Synced(w, t) && TokenFollows(w, t, t in AlsoLost(lossy, v.connections, e))
    {
      assert Synced(v, t) && TokenFollows(v, t, t in lossy);
    }
  }

  // ---- reading the state ----

  /** Ready is sound: in every reachable state, if the live policy of an owned connection
      carries the current generation and no error is recorded, then the maps hold exactly
      the owner's policy and exactly the paths planned from the subflows recorded now, at
      least one on each leg. */
  lemma ReadyIsSound(v: Agent, token: U32)
    requires Inv(v) && AllSynced(v) && Owned(v, token)
    requires !v.connections[token].failed && !v.connections[token].closed && !OwnedByDeleting(v, token)
    requires SlotAt(v, token).policy.Some?
    ensures v.connections[token].owner in v.contexts
    ensures var c := v.connections[token]; var a := v.contexts[c.owner].assignment;
      && SlotAt(v, token) == Slot(Some(Derived(a)), WantedPaths(c.flows.Values, a, KeyOf(v, token)))
      && EndpointsOn(c.flows.Values, a, 0) != {} && EndpointsOn(c.flows.Values, a, 1) != {}
      && EndpointsOn(c.flows.Values, a, 0) !! EndpointsOn(c.flows.Values, a, 1)
  {
    assert TokenOk(v, token) && Synced(v, token);
    hide WantedPaths, EndpointsOn, Derived;
  }

  lemma UnbindKeeps(v: Agent, w: Agent, token: U32)
    requires Inv(v) && AllSynced(v) && OnlyToken(v, w, token) && w.connections == v.connections
    requires w.maps == v.maps || Removing(v.maps, w.maps, KeyOf(v, token))
    ensures Inv(w) && AllSynced(w)
  {
    assert TokenOk(v, token) && Synced(v, token);
    UnbindTokenOk(v, w, token);
    InvAfter(v, w, token);
    hide SlotOf, SlotTarget, Inv, Admitted;
    forall t: U32
      ensures Synced(w, t)
    {
      assert Synced(v, t);
      if t != token { OtherTokens(v, w, token, t); }
    }
  }

  lemma UnbindTokenOk(v: Agent, w: Agent, token: U32)
    requires TokenOk(v, token) && OnlyToken(v, w, token) && w.connections == v.connections
    requires w.maps == v.maps || Removing(v.maps, w.maps, KeyOf(v, token))
    ensures TokenOk(w, token)
  {
    if Owned(v, token) {
      RemovingJustified(v, v.contexts[v.connections[token].owner].assignment, v.maps, w.maps, KeyOf(v, token));
      hide SlotOf, Justified, Removing;
    } else if w.maps != v.maps {
      EmptyStaysEmpty(v.maps, w.maps, KeyOf(v, token));
    }
  }

  // ---- capacity ----

  /** The state is bounded: contexts, connections, and subflows of each connection. */
  ghost predicate Bounded(v: Agent) {
    && |v.contexts| <= MAX_CONTEXTS && |v.connections| <= MAX_CONNECTIONS
    && forall t :: t in v.connections ==> |v.connections[t].flows| <= MAX_FLOWS
  }

  lemma SmallerSet<T>(a: set<T>, b: set<T>)
    requires a <= b
    ensures |a| <= |b|
  {
    assert b == a + (b - a);
  }

  lemma PutKeepsBounds(v: Agent, raw: Assignment)
    requires Bounded(v) && Verdict(v.contexts, v.ifs, raw) == None
    ensures Bounded(WithContext(v, Canonical(raw)))
  {
    var id, w := Canonical(raw).spec.id, WithContext(v, Canonical(raw));
    assert w.contexts.Keys == v.contexts.Keys + {id};
    hide ValidAssignment, Canonical;
  }

  lemma DeleteKeepsBounds(v: Agent, id: string)
    requires Bounded(v)
    ensures Bounded(Deleting(v, id))
  {
    assert Deleting(v, id).contexts.Keys == v.contexts.Keys;
  }

  lemma StillFits<K, V>(m: map<K, V>, k: K, v: V, limit: nat)
    requires |m| <= limit && (|m| >= limit ==> k in m)
    ensures |m[k := v]| <= limit && |m - {k}| <= limit
  {
    assert m[k := v].Keys == m.Keys + {k};
    assert (m - {k}).Keys == m.Keys - {k};
    SmallerSet(m.Keys - {k}, m.Keys);
  }

  lemma ObserveKeepsBounds(v: Agent, e: PMEvent)
    requires Bounded(v) && !Ignores(v.connections, e) && !Refuses(v.connections, e)
    ensures Bounded(WithEvent(v, e))
  {
    if e.token in v.connections || e.kind != CLOSED {
      var c := Recorded(v.connections, e)[e.token];
      FlowsFit(v, e);
      StillFits(v.connections, e.token, c, MAX_CONNECTIONS);
      assert Recorded(v.connections, e) == v.connections[e.token := c];
    }
    hide Recorded, Refuses;
  }

  lemma FlowsFit(v: Agent, e: PMEvent)
    requires Bounded(v) && !Ignores(v.connections, e) && !Refuses(v.connections, e)
    ensures e.token in Recorded(v.connections, e) ==> |Recorded(v.connections, e)[e.token].flows| <= MAX_FLOWS
  {
    hide EventFlow;
    if e.kind != CLOSED {
      var before := if e.token in v.connections then v.connections[e.token].flows else map[];
      if e.kind == SUB_CLOSED {
        SmallerFlows(before, EventFlow(e));
      } else {
        StillFits(before, EventFlow(e), e, MAX_FLOWS);
      }
    }
  }

  lemma SmallerFlows(m: map<ObservedFlow, PMEvent>, k: ObservedFlow)
    ensures |m - {k}| <= |m|
  {
    assert (m - {k}).Keys == m.Keys - {k};
    SmallerSet(m.Keys - {k}, m.Keys);
  }

  lemma RefusalKeepsBounds(v: Agent, e: PMEvent)
    requires Bounded(v)
    ensures Bounded(v.(connections := AfterRefusal(v.connections, e)))
  {
    assert AfterRefusal(v.connections, e).Keys == v.connections.Keys;
  }

  /** A context that is not being deleted outlives the reconcile. */
  lemma KeptContext(u: Agent, w: Agent, faultFree: bool, id: string)
    requires Reconciled(u, w, faultFree) && id in u.contexts && !u.contexts[id].deleting
    ensures id in w.contexts && w.contexts[id] == u.contexts[id]
  {
    hide AtTarget, ObservationsKept, OutsideSame;
  }

  lemma ReconcileKeepsBounds(u: Agent, w: Agent, faultFree: bool)
    requires Bounded(u) && Reconciled(u, w, faultFree)
    ensures Bounded(w)
  {
    hide AtTarget, OutsideSame;
    SmallerSet(w.contexts.Keys, u.contexts.Keys);
    SmallerSet(w.connections.Keys, u.connections.Keys);
  }
}
