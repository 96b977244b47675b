/** How the steps of a reconcile change the agent's state, one connection at a time. */
module AgentSteps {
  import opened Words
  import opened Events
  import opened Maps
  import opened Live
  import opened ControlPlane
  import opened Planning
  import opened ConnectionUpdate
  import opened AgentState

  /** Only the record and the map entries of one token differ. */
  ghost predicate OnlyToken(v: Agent, w: Agent, token: U32) {
    && w == v.(connections := w.connections, maps := w.maps)
    && v.connections - {token} == w.connections - {token}
    && SameElsewhere(v.maps, w.maps, KeyOf(v, token))
  }

  lemma OtherTokens(v: Agent, w: Agent, token: U32, other: U32)
    requires OnlyToken(v, w, token) && other != token
    ensures other in v.connections <==> other in w.connections
    ensures other in v.connections ==> v.connections[other] == w.connections[other]
    ensures SlotAt(v, other) == SlotAt(w, other)
    ensures TokenOk(v, other) <==> TokenOk(w, other)
    ensures Synced(v, other) <==> Synced(w, other)
  {
    SlotsElsewhere(v.maps, w.maps, KeyOf(v, token), KeyOf(v, other));
    assert other in v.connections <==> other in v.connections - {token};
    assert other in w.connections <==> other in w.connections - {token};
    if other in v.connections {
      assert v.connections[other] == (v.connections - {token})[other];
      assert w.connections[other] == (w.connections - {token})[other];
    }
    hide SlotOf, SlotTarget, Justified, FlowsSeen;
  }

  lemma InvAfter(v: Agent, w: Agent, token: U32)
    requires Inv(v) && OnlyToken(v, w, token) && TokenOk(w, token)
    ensures Inv(w) && OutsideSame(v.maps, w.maps, v.netns)
  {
    forall other: U32
      ensures TokenOk(w, other)
    {
      if other != token {
        OtherTokens(v, w, token, other);
      }
    }
    forall key: ConnKey | key.netns != v.netns || key.reserved != 0
      ensures SlotOf(v.maps, key) == SlotOf(w.maps, key)
    {
      SlotsElsewhere(v.maps, w.maps, KeyOf(v, token), key);
    }
    hide TokenOk, SlotOf, ContextsOk;
  }

  predicate SameObservation(c: Connection, d: Connection) {
    c.initial == d.initial && c.flows == d.flows && c.closed == d.closed
  }

  /** Observations stay as they are; only closed connections are forgotten. */
  predicate ObservationsKept(cs: Connections, ds: Connections) {
    && (forall t :: t in ds ==> t in cs && SameObservation(cs[t], ds[t]))
    && (forall t :: t in cs && t !in ds ==> cs[t].closed)
  }

  /** What visiting connections never touches: contexts, observations, other namespaces. */
  ghost predicate Kept(v: Agent, w: Agent) {
    && w == v.(connections := w.connections, maps := w.maps)
    && ObservationsKept(v.connections, w.connections)
    && OutsideSame(v.maps, w.maps, v.netns)
  }

  predicate Settled(w: Agent, token: U32) {
    token in w.connections ==> !w.connections[token].closed && !OwnedByDeleting(w, token)
  }

  /** What one visit to a connection achieves: it is in sync; and without a refused store
      operation its maps are at the target, a closed connection is gone and one of a deleted
      context is released. */
  ghost predicate Visited(v: Agent, w: Agent, token: U32, faultFree: bool)
    requires token in v.connections
  {
    && Synced(w, token)
    && (faultFree ==>
          && IsTarget(SlotAt(w, token), v.contexts, v.connections[token], v.ifs, KeyOf(v, token))
          && Settled(w, token))
  }

  // ---- what a reader may see during a visit ----

  /** A content that differs from the state's at one connection, and is justified there. */
  lemma LocallyAccounted(v: Agent, m: Content, token: U32, id: string)
    requires Inv(v) && token in v.connections && id in v.contexts
    requires SameElsewhere(v.maps, m, KeyOf(v, token))
    requires Justifies(v, token, id, SlotOf(m, KeyOf(v, token)))
    ensures Accounted(v, m)
  {
    StateIsAccounted(v);
    hide SlotOf, Justifies, Inv, SameElsewhere;
    forall key: ConnKey | key.netns == v.netns
      ensures KeyAccounted(v, m, key)
    {
      assert KeyAccounted(v, v.maps, key);
      if key != KeyOf(v, token) {
        SlotsElsewhere(v.maps, m, KeyOf(v, token), key);
      }
    }
  }

  /** What was justified stays so while it is being removed. */
  lemma RemovingJustified(v: Agent, a: Assignment, start: Content, now: Content, key: ConnKey)
    requires Justified(v, a, SlotOf(start, key))
    requires now == start || Removing(start, now, key)
    ensures Justified(v, a, SlotOf(now, key))
  {
    forall k | k in PathsOf(now, key)
      ensures k in PathsOf(start, key) && PathsOf(now, key)[k] == PathsOf(start, key)[k]
    {
      assert now == start || SameAt(start.paths, now.paths, k);
    }
    assert PathsOf(start, key) == map[] ==> PathsOf(now, key) == map[];
    hide Observed, NamesTrimmed, Derived;
  }

  lemma RemovingAccounted(v: Agent, m: Content, token: U32)
    requires Inv(v) && Owned(v, token) && (m == v.maps || Removing(v.maps, m, KeyOf(v, token)))
    ensures Accounted(v, m)
  {
    assert TokenOk(v, token);
    if m != v.maps { RemovingIsLocal(v.maps, m, KeyOf(v, token)); }
    var owner := v.connections[token].owner;
    RemovingJustified(v, v.contexts[owner].assignment, v.maps, m, KeyOf(v, token));
    hide Inv, SlotOf, Justified, Matches;
    LocallyAccounted(v, m, token, owner);
  }

  /** Contents seen in the middle of a pass are accounted for by the state at its start. */
  lemma AccountedEarlier(u: Agent, v: Agent, m: Content)
    requires Kept(u, v) && Accounted(v, m)
    ensures Accounted(u, m)
  {
    hide SlotOf, Matches, OutsideSame;
    forall key: ConnKey | key.netns == u.netns
      ensures KeyAccounted(u, m, key)
    {
      assert KeyAccounted(v, m, key);
      if SlotOf(m, key) != EMPTY_SLOT {
        SameMomentJustifies(u, v, key.token, SlotOf(m, key));
      }
    }
  }

  lemma SameMomentJustifies(u: Agent, v: Agent, token: U32, slot: Slot)
    requires Kept(u, v) && token in v.connections && exists id :: Justifies(v, token, id, slot)
    ensures token in u.connections && exists id :: Justifies(u, token, id, slot)
  {
    assert SameObservation(u.connections[token], v.connections[token]);
    var id :| Justifies(v, token, id, slot);
    hide NotAhead, Issued, Provenance, Matches, OutsideSame;
    assert Justifies(u, token, id, slot);
  }

  // ---- a visit that removes the binding ----

  /** The store refused: the policy is untouched or gone, the paths are old ones. */
  lemma RemovalRefused(v: Agent, w: Agent, token: U32)
    requires Inv(v) && Owned(v, token)
    requires OnlyToken(v, w, token) && w.connections == v.connections[token := v.connections[token].(failed := true)]
    requires w.maps == v.maps || Removing(v.maps, w.maps, KeyOf(v, token))
    ensures Inv(w) && Kept(v, w) && Visited(v, w, token, false)
  {
    assert TokenOk(v, token);
    RemovingJustified(v, v.contexts[v.connections[token].owner].assignment, v.maps, w.maps, KeyOf(v, token));
    hide SlotOf, Justified, FlowsSeen, Removing, SlotTarget;
    assert TokenOk(w, token);
    InvAfter(v, w, token);
    hide Inv, TokenOk;
  }

  /** The binding is gone: the record is dropped if closed, otherwise released. */
  lemma RemovalDone(v: Agent, w: Agent, token: U32)
    requires Inv(v) && token in v.connections && OnlyToken(v, w, token)
    requires v.connections[token].closed || OwnedByDeleting(v, token)
    requires var c := v.connections[token];
      w.connections == if c.closed then v.connections - {token}
                       else v.connections[token := c.(owner := "", failed := false)]
    requires SlotAt(w, token) == EMPTY_SLOT
    ensures Inv(w) && Kept(v, w) && Visited(v, w, token, true)
  {
    assert TokenOk(v, token);
    hide SlotOf, Justified;
    assert TokenOk(w, token);
    InvAfter(v, w, token);
    ReleasedIsTarget(v, token, SlotAt(w, token));
  }

  lemma ReleasedIsTarget(v: Agent, token: U32, slot: Slot)
    requires Inv(v) && token in v.connections && slot == EMPTY_SLOT
    requires v.connections[token].closed || OwnedByDeleting(v, token)
    ensures IsTarget(slot, v.contexts, v.connections[token], v.ifs, KeyOf(v, token))
  {
    ReleasedIsUnclaimed(v, token);
  }

  /** No context claims a closed connection, or one of a context being deleted. */
  lemma ReleasedIsUnclaimed(v: Agent, token: U32)
    requires Inv(v) && token in v.connections
    requires v.connections[token].closed || OwnedByDeleting(v, token)
    ensures forall id :: id in v.contexts ==> !Claims(v.contexts[id], v.connections[token])
    ensures Serviceable(v.contexts, v.connections[token], v.ifs)
  {
    var c := v.connections[token];
    assert TokenOk(v, token);
    forall id | id in v.contexts
      ensures !Claims(v.contexts[id], c)
    {
      if Claims(v.contexts[id], c) {
        UniqueMatch(v.contexts, v.ifs, c.initial.value, id, c.owner);
      }
    }
  }

  /** The maps of the connection are at the target already. */
  ghost predicate TokenAtTarget(v: Agent, token: U32) {
    token in v.connections ==> IsTarget(SlotAt(v, token), v.contexts, v.connections[token], v.ifs, KeyOf(v, token))
  }

  lemma ReleasedTargetIsEmpty(v: Agent, token: U32)
    requires Inv(v) && token in v.connections && TokenAtTarget(v, token)
    requires v.connections[token].closed || OwnedByDeleting(v, token)
    ensures SlotAt(v, token) == EMPTY_SLOT
  {
    ReleasedIsUnclaimed(v, token);
    hide SlotOf, SlotTarget;
  }

  lemma OwnedTarget(v: Agent, token: U32, id: string)
    requires Inv(v) && Owner(v, token, id) && TokenAtTarget(v, token)
    ensures Admitted(v.contexts[id].assignment, v.ifs)
    ensures SlotAt(v, token) ==
      SlotTarget(v.connections[token].flows.Values, v.contexts[id].assignment, v.ifs, KeyOf(v, token))
  {
    OwnerAdmitted(v, token, id);
    hide SlotOf, SlotTarget, Inv, Owner;
  }

  /** In the middle of a pass over maps that were at the target. */
  lemma StillAtTarget(u: Agent, v: Agent, todo: set<U32>, faultFree: bool, token: U32)
    requires PassState(u, v, todo, faultFree) && token in todo
    requires AtTarget(u, u.contexts, u.connections) && v.maps == u.maps
    ensures TokenAtTarget(v, token)
  {
    hide IsTarget, SlotOf, Visited;
  }

  // ---- a visit that leaves an unclaimed connection alone ----

  lemma Unclaimed(v: Agent, token: U32)
    requires Inv(v) && token in v.connections && !v.connections[token].closed && !Owned(v, token)
    requires forall id :: id in v.contexts ==> !Claims(v.contexts[id], v.connections[token])
    ensures Kept(v, v) && Visited(v, v, token, true)
  {
    assert TokenOk(v, token);
  }

  // ---- a visit that applies the owner's assignment ----

  /** `id` owns the connection already or claims it now. */
  predicate Owner(v: Agent, token: U32, id: string) {
    && token in v.connections && !v.connections[token].closed && id in v.contexts && !v.contexts[id].deleting
    && if Owned(v, token) then v.connections[token].owner == id else Claims(v.contexts[id], v.connections[token])
  }

  lemma OwnerAdmitted(v: Agent, token: U32, id: string)
    requires Inv(v) && Owner(v, token, id)
    ensures Admitted(v.contexts[id].assignment, v.ifs) && id != ""
    ensures Justified(v, v.contexts[id].assignment, SlotAt(v, token)) && v.contexts[id].assignment in v.accepted
    ensures Claims(v.contexts[id], v.connections[token])
  {
    assert TokenOk(v, token);
  }

  lemma ApplyVisits(v: Agent, w: Agent, token: U32, id: string, ok: bool, faultFree: bool)
    requires Inv(v) && Owner(v, token, id) && OnlyToken(v, w, token)
    requires w.connections == v.connections[token := v.connections[token].(owner := id, failed := !ok)]
    requires Effect(v.maps, w.maps, KeyOf(v, token), v.connections[token].flows.Values, v.contexts[id].assignment)
    requires Admitted(v.contexts[id].assignment, v.ifs)
    requires ok || faultFree ==>
      SlotAt(w, token) == SlotTarget(v.connections[token].flows.Values, v.contexts[id].assignment, v.ifs, KeyOf(v, token))
    ensures Inv(w) && Kept(v, w) && Visited(v, w, token, faultFree)
  {
    AppliedTokenOk(v, w, token, id, ok);
    InvAfter(v, w, token);
    ApplySyncs(v, w, token, id, ok);
    if faultFree { ApplyReaches(v, token, id, SlotAt(w, token)); }
    hide SlotOf, SlotTarget, Effect, Inv, Admitted, TokenOk, IsTarget, Synced, Settled, Owner;
  }

  lemma ApplySyncs(v: Agent, w: Agent, token: U32, id: string, ok: bool)
    requires Inv(v) && Owner(v, token, id) && OnlyToken(v, w, token)
    requires w.connections == v.connections[token := v.connections[token].(owner := id, failed := !ok)]
    requires Admitted(v.contexts[id].assignment, v.ifs)
    requires ok ==>
      SlotAt(w, token) == SlotTarget(v.connections[token].flows.Values, v.contexts[id].assignment, v.ifs, KeyOf(v, token))
    ensures Synced(w, token) && Settled(w, token)
  {
    hide SlotOf, SlotTarget, Inv, Admitted, Matches;
  }

  lemma ApplyReaches(v: Agent, token: U32, id: string, slot: Slot)
    requires Inv(v) && Owner(v, token, id) && Admitted(v.contexts[id].assignment, v.ifs)
    requires slot == SlotTarget(v.connections[token].flows.Values, v.contexts[id].assignment, v.ifs, KeyOf(v, token))
    ensures IsTarget(slot, v.contexts, v.connections[token], v.ifs, KeyOf(v, token))
  {
    OnlyOwnerClaims(v, token, id);
    hide SlotOf, SlotTarget, Admitted, Owner;
  }

  lemma OnlyOwnerClaims(v: Agent, token: U32, id: string)
    requires Inv(v) && Owner(v, token, id)
    ensures forall other :: other in v.contexts ==> (Claims(v.contexts[other], v.connections[token]) <==> other == id)
    ensures Admitted(v.contexts[id].assignment, v.ifs)
    ensures Serviceable(v.contexts, v.connections[token], v.ifs) <==>
      Plannable(v.connections[token].flows.Values, v.contexts[id].assignment, v.ifs)
  {
    OwnerAdmitted(v, token, id);
    var c := v.connections[token];
    hide SlotOf, Admitted, Owner, Plannable;
    forall other | other in v.contexts && Claims(v.contexts[other], c)
      ensures other == id
    {
      UniqueMatch(v.contexts, v.ifs, c.initial.value, other, id);
    }
  }

  lemma AppliedTokenOk(v: Agent, w: Agent, token: U32, id: string, ok: bool)
    requires Inv(v) && Owner(v, token, id) && OnlyToken(v, w, token)
    requires w.connections == v.connections[token := v.connections[token].(owner := id, failed := !ok)]
    requires Effect(v.maps, w.maps, KeyOf(v, token), v.connections[token].flows.Values, v.contexts[id].assignment)
    ensures TokenOk(w, token)
  {
    OwnerAdmitted(v, token, id);
    EffectJustified(v, w.maps, token, id);
    assert TokenOk(v, token);
    hide SlotOf, Justified, Effect, Admitted, FlowsSeen;
  }

  /** An update leaves what the assignment justifies, at every moment of it. */
  lemma EffectJustified(v: Agent, m: Content, token: U32, id: string)
    requires Inv(v) && Owner(v, token, id)
    requires Effect(v.maps, m, KeyOf(v, token), v.connections[token].flows.Values, v.contexts[id].assignment)
    ensures Justified(v, v.contexts[id].assignment, SlotOf(m, KeyOf(v, token)))
  {
    var c, a, key := v.connections[token], v.contexts[id].assignment, KeyOf(v, token);
    OwnerAdmitted(v, token, id);
    assert TokenOk(v, token);
    var want, now := WantedPaths(c.flows.Values, a, key), PathsOf(m, key);
    hide Inv, TokenOk, Owner, ContextsOk, NamesTrimmed;
    forall k | k in now
      ensures Observed(v.journal, a, k, now[k].access)
    {
      if k in want && want[k] == now[k] {
        WantedIsObserved(v.journal, c.flows, a, key, k);
      } else {
        assert SameAt(PathsOf(v.maps, key), now, k);
        assert k in SlotAt(v, token).paths;
      }
    }
  }

  lemma EffectAccounted(v: Agent, m: Content, token: U32, id: string)
    requires Inv(v) && Owner(v, token, id)
    requires Effect(v.maps, m, KeyOf(v, token), v.connections[token].flows.Values, v.contexts[id].assignment)
    ensures Accounted(v, m)
  {
    EffectJustified(v, m, token, id);
    OwnerAdmitted(v, token, id);
    hide Inv, SlotOf, Justified, Matches;
    LocallyAccounted(v, m, token, id);
  }

  lemma WantedIsObserved(journal: seq<PMEvent>, flows: map<ObservedFlow, PMEvent>, a: Assignment, key: ConnKey, k: PathKey)
    requires FlowsSeen(journal, key.token, flows) && k in WantedPaths(flows.Values, a, key)
    ensures Observed(journal, a, k, WantedPaths(flows.Values, a, key)[k].access)
  {
    var access: U32 := WantedPaths(flows.Values, a, key)[k].access;
    var ep := Endpoint(k.localId, k.remoteId);
    assert ep in EndpointsOn(flows.Values, a, access);
    var e :| e in flows.Values && LegOf(a, e.localAddress) == Some(access) && EndpointOf(e) == ep;
    assert e in Lifetime(journal, key.token) && Opening(e);
  }

  // ---- composing visits ----

  lemma KeptComposes(u: Agent, v: Agent, w: Agent)
    requires Kept(u, v) && Kept(v, w)
    ensures Kept(u, w)
  {
    hide SlotOf;
    forall t | t in u.connections && t !in w.connections
      ensures u.connections[t].closed
    {
      if t in v.connections {
        assert SameObservation(u.connections[t], v.connections[t]);
      }
    }
  }

  /** A later visit to another connection leaves an earlier one's result as it is. */
  lemma VisitPersists(u: Agent, v: Agent, w: Agent, visited: U32, token: U32, faultFree: bool)
    requires visited in u.connections && Visited(u, v, visited, faultFree)
    requires OnlyToken(v, w, token) && visited != token
    ensures Visited(u, w, visited, faultFree)
  {
    OtherTokens(v, w, token, visited);
    hide SlotOf, IsTarget, Synced;
  }

  lemma VisitWeakens(v: Agent, w: Agent, token: U32, faultFree: bool, faultFree': bool)
    requires token in v.connections && Visited(v, w, token, faultFree)
    requires faultFree' ==> faultFree
    ensures Visited(v, w, token, faultFree')
  {
  }

  /** A visit counts from the start of the pass as long as the record was not touched. */
  lemma VisitFromStart(u: Agent, v: Agent, w: Agent, token: U32, faultFree: bool)
    requires Kept(u, v) && token in u.connections && token in v.connections
    requires Visited(v, w, token, faultFree)
    ensures Visited(u, w, token, faultFree)
  {
    assert SameObservation(u.connections[token], v.connections[token]);
    var c, d := u.connections[token], v.connections[token];
    assert forall id :: id in u.contexts ==> (Claims(u.contexts[id], c) <==> Claims(v.contexts[id], d));
    hide SlotOf, SlotTarget, Synced, Matches;
  }

  // ---- the whole pass over the connections ----

  /** The connections in `todo` are untouched, the others have been visited. */
  ghost predicate PassState(u: Agent, v: Agent, todo: set<U32>, faultFree: bool) {
    && Kept(u, v)
    && (forall t :: t in todo ==> t in u.connections && t in v.connections && v.connections[t] == u.connections[t])
    && (forall t :: t in u.connections && t !in todo ==> Visited(u, v, t, faultFree))
  }

  lemma PassStep(u: Agent, v: Agent, w: Agent, todo: set<U32>, token: U32,
                 faultFree: bool, faultFree': bool, faultFree'': bool)
    requires PassState(u, v, todo, faultFree) && token in todo
    requires OnlyToken(v, w, token) && Kept(v, w) && Visited(v, w, token, faultFree')
    requires faultFree'' ==> faultFree && faultFree'
    ensures PassState(u, w, todo - {token}, faultFree'')
  {
    KeptComposes(u, v, w);
    hide Kept, Visited, OnlyToken;
    forall t | t in u.connections && t !in todo - {token}
      ensures Visited(u, w, t, faultFree'')
    {
      if t == token {
        VisitFromStart(u, v, w, token, faultFree');
        VisitWeakens(u, w, token, faultFree', faultFree'');
      } else {
        VisitPersists(u, v, w, t, token, faultFree);
        VisitWeakens(u, w, t, faultFree, faultFree'');
      }
    }
    forall t | t in todo - {token}
      ensures t in u.connections && t in w.connections && w.connections[t] == u.connections[t]
    {
      OtherTokens(v, w, token, t);
    }
  }

  /** The maps of the connection are what the contexts and connections of `u` ask for. */
  ghost predicate Reached(u: Agent, w: Agent, t: U32) {
    if t in u.connections then IsTarget(SlotAt(w, t), u.contexts, u.connections[t], u.ifs, KeyOf(u, t))
    else SlotAt(w, t) == EMPTY_SLOT
  }

  /** At most the connections `off` have not reached their target. */
  ghost predicate ReachedBut(u: Agent, w: Agent, off: set<U32>) {
    forall t: U32 :: t !in off ==> Reached(u, w, t)
  }

  lemma NothingReached(v: Agent)
    requires Inv(v)
    ensures ReachedBut(v, v, v.connections.Keys)
  {
    hide SlotOf, IsTarget;
    forall t: U32 | t !in v.connections
      ensures Reached(v, v, t)
    {
      assert TokenOk(v, t);
    }
  }

  /** A visit reaches the target unless some operation was refused, and spoils no other
      connection. */
  lemma VisitReaches(u: Agent, v: Agent, w: Agent, pending: set<U32>, token: U32, faultFree: bool)
    requires ReachedBut(u, v, pending) && token in u.connections && u.netns == v.netns
    requires OnlyToken(v, w, token) && Visited(u, w, token, faultFree)
    ensures ReachedBut(u, w, if faultFree then pending - {token} else pending + {token})
  {
    hide SlotOf, IsTarget, Synced, Settled;
    forall t: U32 | t !in (if faultFree then pending - {token} else pending + {token})
      ensures Reached(u, w, t)
    {
      if t != token {
        OtherTokens(v, w, token, t);
        assert Reached(u, v, t);
      }
    }
  }

  lemma PassEnd(u: Agent, v: Agent, faultFree: bool)
    requires Inv(v) && PassState(u, v, {}, faultFree)
    ensures AllSynced(v)
    ensures faultFree ==> AtTarget(v, u.contexts, u.connections) && forall t: U32 :: Settled(v, t)
  {
    hide IsTarget, SlotOf, SlotTarget, Justified, FlowsSeen;
    forall t: U32
      ensures Synced(v, t)
      ensures faultFree ==> Settled(v, t)
      ensures faultFree ==>
        if t in u.connections then IsTarget(SlotAt(v, t), u.contexts, u.connections[t], v.ifs, KeyOf(v, t))
        else SlotAt(v, t) == EMPTY_SLOT
    {
      assert TokenOk(v, t);
      if t in u.connections {
        assert Visited(u, v, t, faultFree);
      }
    }
  }

  // ---- dropping deleted contexts ----

  predicate OwnsNone(connections: Connections, id: string) {
    forall t :: t in connections ==> connections[t].owner != id
  }

  /** Some deleted contexts that own no connection are gone. */
  ghost predicate Swept(v: Agent, w: Agent) {
    && w == v.(contexts := w.contexts)
    && (forall id :: id in w.contexts ==> id in v.contexts && w.contexts[id] == v.contexts[id])
    && (forall id :: id in v.contexts && id !in w.contexts ==>
          v.contexts[id].deleting && OwnsNone(v.connections, id))
  }

  lemma SweepKeeps(v: Agent, w: Agent)
    requires Inv(v) && AllSynced(v) && Swept(v, w)
    ensures Inv(w) && AllSynced(w)
  {
    hide SlotOf, SlotTarget, NotAhead, Issued, Provenance, FlowsSeen, Admitted;
    forall t: U32
      ensures TokenOk(w, t) && Synced(w, t)
    {
      assert TokenOk(v, t) && Synced(v, t);
      assert Owned(v, t) ==> !OwnsNone(v.connections, v.connections[t].owner);
    }
  }

  /** The result of a whole reconcile. Without a refused store operation the namespace's maps
      equal the declarative target and no deleted context and no closed connection is left. */
  ghost predicate Reconciled(u: Agent, w: Agent, faultFree: bool) {
    && w == u.(contexts := w.contexts, connections := w.connections, maps := w.maps)
    && (forall id :: id in w.contexts ==> id in u.contexts && w.contexts[id] == u.contexts[id])
    && (forall id :: id in u.contexts && id !in w.contexts ==> u.contexts[id].deleting)
    && ObservationsKept(u.connections, w.connections)
    && OutsideSame(u.maps, w.maps, u.netns)
    && (faultFree ==>
          && AtTarget(w, u.contexts, u.connections)
          && (forall id :: id in w.contexts ==> !w.contexts[id].deleting)
          && (forall t :: t in w.connections ==> !w.connections[t].closed))
  }

  lemma ReconciledAtEnd(u: Agent, v: Agent, w: Agent, faultFree: bool)
    requires Inv(v) && PassState(u, v, {}, faultFree) && Swept(v, w)
    requires forall id :: id in w.contexts && w.contexts[id].deleting ==> !OwnsNone(w.connections, id)
    ensures Inv(w) && AllSynced(w) && Reconciled(u, w, faultFree)
  {
    PassEnd(u, v, faultFree);
    SweepKeeps(v, w);
    if faultFree {
      NothingDeletedLeft(v, w);
      NothingClosedLeft(v, w);
    }
    hide Inv, AllSynced, SlotOf, IsTarget, Visited, Settled;
  }

  /** The target reached is also the target of the contexts and connections left. */
  lemma ReachedIsOwnTarget(u: Agent, w: Agent)
    requires Reconciled(u, w, true)
    ensures AtTarget(w, w.contexts, w.connections)
  {
    hide SlotOf, SlotTarget, Matches, Admitted, OutsideSame;
    forall t: U32
      ensures if t in w.connections then IsTarget(SlotAt(w, t), w.contexts, w.connections[t], w.ifs, KeyOf(w, t))
              else SlotAt(w, t) == EMPTY_SLOT
    {
      if t in w.connections {
        var c, d := u.connections[t], w.connections[t];
        assert SameObservation(c, d);
        assert forall id :: id in w.contexts ==> (Claims(u.contexts[id], c) <==> Claims(w.contexts[id], d));
      } else if t in u.connections {
        assert forall id :: id in u.contexts ==> !Claims(u.contexts[id], u.connections[t]);
      }
    }
  }

  lemma NothingDeletedLeft(v: Agent, w: Agent)
    requires Inv(v) && Swept(v, w) && forall t: U32 :: Settled(v, t)
    requires forall id :: id in w.contexts && w.contexts[id].deleting ==> !OwnsNone(w.connections, id)
    ensures forall id :: id in w.contexts ==> !w.contexts[id].deleting
  {
    forall id | id in w.contexts
      ensures !w.contexts[id].deleting
    {
      IdsNonempty(v, id);
      if t :| t in w.connections && w.connections[t].owner == id {
        assert Settled(v, t);
      }
    }
  }

  lemma NothingClosedLeft(v: Agent, w: Agent)
    requires Swept(v, w) && forall t: U32 :: Settled(v, t)
    ensures forall t :: t in w.connections ==> !w.connections[t].closed
  {
    forall t | t in w.connections
      ensures !w.connections[t].closed
    {
      assert Settled(v, t);
    }
  }

  lemma IdsNonempty(v: Agent, id: string)
    requires Inv(v) && id in v.contexts
    ensures id != ""
  {
  }
}
