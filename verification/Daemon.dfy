/** The agent: desired contexts, observed connections, and a store that may fail. */
module AgentDaemon {
  import opened Words
  import opened Events
  import opened Maps
  import opened Live
  import opened ControlPlane
  import opened Planning
  import opened ConnectionUpdate
  import opened AgentState
  import opened AgentSteps
  import opened Replay
  import opened AgentOperations
  import opened AgentRuns
  import opened Service

  /** Taken: the assignment is stored; `clean` is the absence of an error in the reconcile. */
  datatype PutResult = Taken(clean: bool) | Refused(why: Refusal) | Dead

  datatype ObserveResult = Accepted | Ignored | Lost | Stopped

  class Daemon {
    const store: MapStore
    const netns: U64
    const interfaces: Interfaces
    var contexts: Contexts
    var connections: Connections
    var fatal: bool
    /** The events and assignments accepted so far, and the connections whose initial tuple a
        refused event has replaced. */
    ghost var journal: seq<PMEvent>
    ghost var accepted: set<Assignment>
    ghost var lossy: set<U32>

    ghost function View(): Agent
      reads this, store
    {
      Agent(contexts, connections, store.maps, netns, interfaces, journal, accepted)
    }

    ghost predicate Valid()
      reads this, store
    {
      store.Valid() && Inv(View()) && AllSynced(View()) && FollowsReplay(View(), lossy) && Bounded(View())
    }

    ghost function Now(): Moment
      reads this, store
    {
      Moment(View(), fatal, lossy, |store.history|, store.faults)
    }

    lemma NowPassed()
      requires Valid()
      ensures Passed(Now(), View(), store.history)
    {
      hide Inv, AllSynced, FollowsReplay, Bounded;
    }

    /** The namespace starts empty and its inode is not zero. */
    constructor (store: MapStore, netns: U64, interfaces: Interfaces)
      requires store.Valid() && netns != 0
      requires forall key: ConnKey :: key.netns == netns ==> SlotOf(store.maps, key) == EMPTY_SLOT
      ensures Valid() && this.store == store && this.netns == netns && this.interfaces == interfaces
      ensures contexts == map[] && connections == map[] && !fatal && journal == [] && accepted == {} && lossy == {}
    {
      this.store, this.netns, this.interfaces := store, netns, interfaces;
      contexts, connections := map[], map[];
      fatal := false;
      journal, accepted, lossy := [], {}, {};
    }

    /** Looks for the context that claims the connection, in any order. */
    method FindOwner(c: Connection) returns (owner: string)
      requires ContextsOk(contexts, interfaces) && !c.closed
      ensures owner != "" ==> owner in contexts && Claims(contexts[owner], c)
      ensures owner == "" ==> forall id :: id in contexts ==> !Claims(contexts[id], c)
      // on the fields: the flow of an undeleted context, from either of its legs
      ensures c.initial.Some? ==>
        var e := c.initial.value;
        (owner == "" <==> forall id :: id in contexts && !contexts[id].deleting ==>
           var spec := contexts[id].assignment.spec;
           || e.destinationAddress != spec.flow.destinationAddress || e.destinationPort != spec.flow.destinationPort
           || (e.localAddress != spec.legA.localAddress && e.localAddress != spec.legB.localAddress))
    {
      if c.initial.None? {
        return "";
      }
      var todo := contexts.Keys;
      while todo != {}
        invariant todo <= contexts.Keys
        invariant forall id :: id in contexts && id !in todo ==> !Claims(contexts[id], c)
        decreases |todo|
      {
        var id :| id in todo;
        todo := todo - {id};
        if !contexts[id].deleting && Matches(contexts[id].assignment, c.initial.value) {
          return id;
        }
      }
      owner := "";
    }

    /** The part of a reconcile iteration for closed connections and deleted contexts. */
    method Remove(token: U32, key: ConnKey) returns (ok: bool)
      requires store.Valid() && Inv(View()) && token in connections && key == KeyOf(View(), token)
      requires connections[token].closed || OwnedByDeleting(View(), token)
      modifies this`connections, store
      ensures store.Valid() && store.faults >= old(store.faults)
      ensures Inv(View()) && OnlyToken(old(View()), View(), token) && Kept(old(View()), View())
      ensures Visited(old(View()), View(), token, store.faults == old(store.faults))
      ensures old(store.history) <= store.history && Throughout(old(View()), store.history, |old(store.history)|)
      ensures ok ==> store.faults == old(store.faults)
      ensures store.faults == old(store.faults) ==> (ok <==> Serviceable(contexts, old(connections)[token], interfaces))
      ensures ok && Owned(View(), token) ==> !connections[token].failed
      ensures TokenAtTarget(old(View()), token) ==> store.history == old(store.history)
    {
      ghost var start, faults := View(), store.faults;
      ReleasedIsUnclaimed(start, token);
      hide Inv, Kept, Visited, TokenOk, SlotOf, IsTarget, TokenAtTarget, OnlyToken, Removing, SameElsewhere;
      hide Accounted, Serviceable;
      var c := connections[token];
      var gone := RemoveEntries(token, key);
      if !gone {
        connections := connections[token := c.(failed := true)];
        LocalStep(start, View(), token);
        RemovalRefused(start, View(), token);
        return false;
      }
      if c.closed {
        connections := connections - {token};
      } else {
        connections := connections[token := c.(owner := "", failed := false)];
      }
      LocalStep(start, View(), token);
      RemovalDone(start, View(), token);
      ok := true;
    }

    /** Removes what the maps hold for a connection, if it is owned. */
    method RemoveEntries(token: U32, key: ConnKey) returns (gone: bool)
      requires store.Valid() && Inv(View()) && token in connections && key == KeyOf(View(), token)
      requires connections[token].closed || OwnedByDeleting(View(), token)
      modifies store
      ensures store.Valid() && SameElsewhere(old(store.maps), store.maps, key)
      ensures if gone then store.faults == old(store.faults) && SlotOf(store.maps, key) == EMPTY_SLOT
              else store.faults > old(store.faults) && Owned(old(View()), token)
      ensures store.maps == old(store.maps) || Removing(old(store.maps), store.maps, key)
      ensures old(store.history) <= store.history && Throughout(old(View()), store.history, |old(store.history)|)
      ensures TokenAtTarget(old(View()), token) ==> store.history == old(store.history)
    {
      ghost var start := View();
      if TokenAtTarget(start, token) { ReleasedTargetIsEmpty(start, token); }
      hide Inv, SlotOf, IsTarget, TokenAtTarget, Removing, Accounted;
      if connections[token].owner == "" {
        NotOwnedIsEmpty(start, token);
        return true;
      }
      ghost var left;
      gone, left := DeleteLive(key, store);
      forall i | |old(store.history)| <= i < |store.history|
        ensures Accounted(start, store.history[i])
      {
        RemovingAccounted(start, store.history[i], token);
      }
    }

    lemma LocalStep(v: Agent, w: Agent, token: U32)
      requires w == v.(connections := w.connections, maps := w.maps)
      requires w.connections == v.connections - {token}
               || w.connections == v.connections
               || (token in w.connections && w.connections == v.connections[token := w.connections[token]])
      requires SameElsewhere(v.maps, w.maps, KeyOf(v, token))
      ensures OnlyToken(v, w, token)
    {
    }

    lemma NotOwnedIsEmpty(v: Agent, token: U32)
      requires Inv(v) && !Owned(v, token)
      ensures SlotAt(v, token) == EMPTY_SLOT
    {
      assert TokenOk(v, token);
    }

    /** The part of a reconcile iteration that applies an owner's assignment. */
    method Adopt(token: U32, key: ConnKey, owner: string) returns (ok: bool)
      requires store.Valid() && Inv(View()) && Owner(View(), token, owner) && key == KeyOf(View(), token)
      modifies this`connections, store
      ensures store.Valid() && store.faults >= old(store.faults)
      ensures Inv(View()) && OnlyToken(old(View()), View(), token) && Kept(old(View()), View())
      ensures Visited(old(View()), View(), token, store.faults == old(store.faults))
      ensures old(store.history) <= store.history && Throughout(old(View()), store.history, |old(store.history)|)
      ensures ok ==> store.faults == old(store.faults)
      ensures store.faults == old(store.faults) ==> (ok <==> Serviceable(contexts, old(connections)[token], interfaces))
      ensures ok && Owned(View(), token) ==> !connections[token].failed
      ensures TokenAtTarget(old(View()), token) ==> store.history == old(store.history)
    {
      ghost var start := View();
      OwnerAdmitted(start, token, owner);
      OnlyOwnerClaims(start, token, owner);
      if TokenAtTarget(start, token) { OwnedTarget(start, token, owner); }
      assert start.netns != 0;
      hide IsTarget, TokenAtTarget, OnlyToken, Inv, Kept, Visited, TokenOk, SlotOf, Effect, SlotTarget, Conflict;
      hide Admitted, NotAhead, SameElsewhere, Accounted, Serviceable, Plannable, Provenance, Owner, NamesTrimmed;
      var c := connections[token];
      ok := ApplyConnection(store, interfaces, key, c.flows.Values, contexts[owner].assignment);
      connections := connections[token := c.(owner := owner, failed := !ok)];
      forall i | |old(store.history)| <= i < |store.history|
        ensures Accounted(start, store.history[i])
      {
        EffectAccounted(start, store.history[i], token, owner);
      }
      EffectIsLocal(start.maps, store.maps, key, c.flows.Values, contexts[owner].assignment);
      LocalStep(start, View(), token);
      ApplyVisits(start, View(), token, owner, ok, store.faults == old(store.faults));
    }

    lemma EffectIsLocal(start: Content, now: Content, key: ConnKey, events: set<PMEvent>, a: Assignment)
      requires Effect(start, now, key, events, a)
      ensures SameElsewhere(start, now, key)
    {
    }

    /** One iteration of the reconcile: remove the binding of a closed connection or a
        deleted context, adopt an unowned connection, apply the owner's assignment. */
    method ReconcileConnection(token: U32) returns (ok: bool)
      requires store.Valid() && Inv(View()) && token in connections
      modifies this`connections, store
      ensures store.Valid() && store.faults >= old(store.faults)
      ensures Inv(View()) && OnlyToken(old(View()), View(), token) && Kept(old(View()), View())
      ensures Visited(old(View()), View(), token, store.faults == old(store.faults))
      ensures old(store.history) <= store.history && Throughout(old(View()), store.history, |old(store.history)|)
      ensures ok ==> store.faults == old(store.faults)
      ensures store.faults == old(store.faults) ==> (ok <==> Serviceable(contexts, old(connections)[token], interfaces))
      ensures ok && Owned(View(), token) ==> !connections[token].failed
      ensures TokenAtTarget(old(View()), token) ==> store.history == old(store.history)
    {
      var c := connections[token];
      var key := ConnKey(netns, token, 0);
      IdsAreNames(View());
      if c.closed || (c.owner in contexts && contexts[c.owner].deleting) {
        ok := Remove(token, key);
        return;
      }
      assert TokenOk(View(), token);
      hide TokenOk, SlotOf, Visited, Kept, Accounted, Plannable;
      var owner := c.owner;
      if owner == "" {
        owner := FindOwner(c);
      }
      if owner == "" {
        Unclaimed(View(), token);
        NoStep(View(), token);
        return true;
      }
      ok := Adopt(token, key, owner);
    }

    lemma IdsAreNames(v: Agent)
      requires Inv(v)
      ensures "" !in v.contexts && ContextsOk(v.contexts, v.ifs)
    {
    }

    lemma NoStep(v: Agent, token: U32)
      ensures OnlyToken(v, v, token)
    {
    }

    /** Visits every connection once, in any order, going on after a failure: the connections
        `off` that have not reached their target are no more than the operations refused. */
    method ReconcileConnections() returns (ok: bool, ghost off: set<U32>)
      requires store.Valid() && Inv(View())
      modifies this`connections, store
      ensures store.Valid() && store.faults >= old(store.faults) && Inv(View())
      ensures PassState(old(View()), View(), {}, store.faults == old(store.faults))
      ensures old(store.history) <= store.history && Throughout(old(View()), store.history, |old(store.history)|)
      ensures ok ==> store.faults == old(store.faults)
      ensures store.faults == old(store.faults) ==> (ok <==> AllServiceable(old(View())))
      ensures |off| <= store.faults - old(store.faults) && ReachedBut(old(View()), View(), off)
      ensures ok ==> NoErrors(View(), {})
      ensures AtTarget(old(View()), old(contexts), old(connections)) ==> store.history == old(store.history)
    {
      hide Inv, PassState, AtTarget, SlotOf, Throughout, ServiceableExcept, ReachedBut;
      ghost var start, before, faults := View(), store.history, store.faults;
      var todo := connections.Keys;
      ok, off := true, {};
      NothingVisited(start, before);
      NothingReached(start);
      assert todo + off == todo;
      assert Midway(start, before, faults, todo, ok);
      hide Midway;
      while todo != {}
        invariant todo <= start.connections.Keys && Midway(start, before, faults, todo, ok)
        invariant |off| <= store.faults - faults && ReachedBut(start, View(), todo + off)
        decreases |todo|
      {
        var token :| token in todo;
        ghost var seen := store.faults;
        MidwayFaults(start, before, faults, todo, ok);
        var done := VisitNext(start, before, faults, todo, off, ok, token);
        ok := ok && done;
        todo := todo - {token};
        if store.faults != seen { off := off + {token}; }
      }
      assert todo + off == off;
      MidwayEnds(start, before, faults, ok);
    }

    lemma MidwayEnds(start: Agent, before: seq<Content>, faults: nat, ok: bool)
      requires Midway(start, before, faults, {}, ok)
      ensures store.Valid() && Inv(View()) && store.faults >= faults
      ensures PassState(start, View(), {}, store.faults == faults)
      ensures before <= store.history && Throughout(start, store.history, |before|)
      ensures ok ==> store.faults == faults
      ensures store.faults == faults ==> (ok <==> ServiceableExcept(start, {}))
      ensures AtTarget(start, start.contexts, start.connections) ==> store.history == before
      ensures ok ==> NoErrors(View(), {})
    {
      hide Inv, PassState, AtTarget, SlotOf, Throughout, ServiceableExcept;
    }

    lemma MidwayFaults(start: Agent, before: seq<Content>, faults: nat, todo: set<U32>, ok: bool)
      requires Midway(start, before, faults, todo, ok)
      ensures store.faults >= faults
    {
      hide Inv, PassState, AtTarget, Throughout, ServiceableExcept;
    }

    /** In the middle of the pass that started in state `start`: what has been achieved, and
        what it means that no error has been met. */
    ghost predicate Midway(start: Agent, before: seq<Content>, faults: nat, todo: set<U32>, ok: bool)
      reads this, store
    {
      && store.Valid() && Inv(View()) && store.faults >= faults
      && PassState(start, View(), todo, store.faults == faults)
      && before <= store.history && Throughout(start, store.history, |before|)
      && (ok ==> store.faults == faults)
      && (store.faults == faults ==> (ok <==> ServiceableExcept(start, todo)))
      && (AtTarget(start, start.contexts, start.connections) ==> store.history == before && store.maps == start.maps)
      && (ok ==> NoErrors(View(), todo))
    }

    /** No owned connection outside `todo` has an error recorded. */
    ghost predicate NoErrors(v: Agent, todo: set<U32>) {
      forall t: U32 :: t !in todo && Owned(v, t) ==> !v.connections[t].failed
    }

    lemma ErrorsElsewhere(v: Agent, w: Agent, todo: set<U32>, token: U32)
      requires NoErrors(v, todo) && OnlyToken(v, w, token)
      requires Owned(w, token) ==> !w.connections[token].failed
      ensures NoErrors(w, todo - {token})
    {
      forall t: U32 | t !in todo - {token} && Owned(w, t)
        ensures !w.connections[t].failed
      {
        if t != token { OtherTokens(v, w, token, t); }
      }
    }

    method VisitNext(ghost start: Agent, ghost before: seq<Content>, ghost faults: nat, ghost todo: set<U32>,
                     ghost off: set<U32>, ghost ok: bool, token: U32)
      returns (done: bool)
      requires Midway(start, before, faults, todo, ok) && token in todo
      requires ReachedBut(start, View(), todo + off)
      modifies this`connections, store
      ensures Midway(start, before, faults, todo - {token}, ok && done) && store.faults >= old(store.faults)
      ensures ReachedBut(start, View(), (todo - {token}) + if store.faults == old(store.faults) then off else off + {token})
    {
      hide Inv, PassState, Visited, Kept, OnlyToken, AtTarget, TokenAtTarget, SlotOf, Serviceable;
      hide Throughout, ServiceableExcept;
      ghost var last, seen, written := View(), store.faults, store.history;
      PendingIsTracked(start, last, todo, store.faults == faults, token);
      if AtTarget(start, start.contexts, start.connections) {
        StillAtTarget(start, last, todo, store.faults == faults, token);
      }
      done := ReconcileConnection(token);
      PassStep(start, last, View(), todo, token, seen == faults, store.faults == seen, store.faults == faults);
      VisitFromStart(start, last, View(), token, store.faults == seen);
      VisitReaches(start, last, View(), todo + off, token, store.faults == seen);
      if store.faults == seen {
        FewerOff(start, View(), todo + off - {token}, (todo - {token}) + off);
      } else {
        FewerOff(start, View(), todo + off + {token}, (todo - {token}) + (off + {token}));
      }
      MoreAccounted(start, last, written, store.history, |before|);
      OneMoreServiceable(start, todo, token);
      if ok && done { ErrorsElsewhere(last, View(), todo, token); }
    }

    lemma FewerOff(u: Agent, w: Agent, off: set<U32>, all: set<U32>)
      requires ReachedBut(u, w, off) && off <= all
      ensures ReachedBut(u, w, all)
    {
      hide Reached;
    }

    lemma NothingVisited(v: Agent, history: seq<Content>)
      ensures PassState(v, v, v.connections.Keys, true) && ServiceableExcept(v, v.connections.Keys)
      ensures NoErrors(v, v.connections.Keys)
      ensures Throughout(v, history, |history|)
    {
    }

    lemma PendingIsTracked(u: Agent, v: Agent, todo: set<U32>, faultFree: bool, token: U32)
      requires PassState(u, v, todo, faultFree) && token in todo
      ensures Kept(u, v) && token in v.connections && token in u.connections
      ensures v.connections[token] == u.connections[token] && v.contexts == u.contexts && v.ifs == u.ifs
    {
    }

    lemma MoreAccounted(u: Agent, v: Agent, before: seq<Content>, history: seq<Content>, from: nat)
      requires Throughout(u, before, from) && before <= history
      requires Kept(u, v) && Throughout(v, history, |before|)
      ensures Throughout(u, history, from)
    {
      hide Kept, Accounted;
      forall i | from <= i < |history|
        ensures Accounted(u, history[i])
      {
        if i >= |before| { AccountedEarlier(u, v, history[i]); }
      }
    }

    /** No connection outside `todo` has observations that its context cannot be planned
        from. */
    ghost predicate ServiceableExcept(v: Agent, todo: set<U32>) {
      forall t :: t in v.connections && t !in todo ==> Serviceable(v.contexts, v.connections[t], v.ifs)
    }

    ghost predicate AllServiceable(v: Agent) {
      ServiceableExcept(v, {})
    }

    lemma OneMoreServiceable(v: Agent, todo: set<U32>, token: U32)
      requires token in todo && token in v.connections
      ensures ServiceableExcept(v, todo - {token}) <==>
        ServiceableExcept(v, todo) && Serviceable(v.contexts, v.connections[token], v.ifs)
    {
      hide Serviceable;
    }

    /** Forgets deleted contexts that own no connection any more. */
    method Sweep()
      modifies this`contexts
      ensures Swept(old(View()), View())
      ensures forall id :: id in contexts && contexts[id].deleting ==> !OwnsNone(connections, id)
    {
      var todo := contexts.Keys;
      while todo != {}
        invariant todo <= old(contexts).Keys && forall id :: id in todo ==> id in contexts
        invariant forall id :: id in contexts ==> id in old(contexts) && contexts[id] == old(contexts)[id]
        invariant forall id :: id in old(contexts) && id !in contexts ==>
          old(contexts)[id].deleting && OwnsNone(connections, id)
        invariant forall id :: id in contexts && id !in todo && contexts[id].deleting ==> !OwnsNone(connections, id)
        decreases |todo|
      {
        var id :| id in todo;
        todo := todo - {id};
        if contexts[id].deleting {
          var owned := OwnsSome(id);
          if !owned {
            contexts := contexts - {id};
          }
        }
      }
    }

    /** Whether some connection is owned by the context, looking in any order. */
    method OwnsSome(id: string) returns (owned: bool)
      ensures owned <==> !OwnsNone(connections, id)
    {
      var todo := connections.Keys;
      while todo != {}
        invariant todo <= connections.Keys
        invariant forall t :: t in connections && t !in todo ==> connections[t].owner != id
        decreases |todo|
      {
        var t :| t in todo;
        todo := todo - {t};
        if connections[t].owner == id {
          return true;
        }
      }
      owned := false;
    }

    /** Every operation ends here. Without a refused store operation the maps end at the
        target, and then an error is reported exactly if some claimed connection cannot be
        planned; without an error nothing was refused. Each refused operation spoils at most
        one connection. Maps that are at the target are not written. Every content on the way
        is accounted for. */
    method ReconcileLocked() returns (ok: bool)
      requires store.Valid() && Inv(View()) && FollowsReplay(View(), lossy) && Bounded(View())
      modifies this`connections, this`contexts, store
      ensures Valid() && store.faults >= old(store.faults)
      ensures Reconciled(old(View()), View(), store.faults == old(store.faults))
      ensures old(store.history) <= store.history && Throughout(old(View()), store.history, |old(store.history)|)
      ensures ok ==> store.faults == old(store.faults)
      ensures store.faults == old(store.faults) ==>
        AtTarget(View(), contexts, connections) && WellServed(View()) && (ok <==> AllServiceable(old(View())))
      ensures exists off :: |off| <= store.faults - old(store.faults) && ReachedBut(old(View()), View(), off)
      ensures ok ==> NoErrors(View(), {})
      ensures AtTarget(old(View()), old(contexts), old(connections)) ==> store.history == old(store.history)
    {
      ghost var start, faults := View(), store.faults;
      hide Throughout, AllServiceable, ReachedBut, WellServed, NoErrors;
      ghost var off;
      ok, off := ReconcileConnections();
      ghost var mid := View();
      Sweep();
      SameMapsReach(start, mid, View(), off);
      if ok { SameErrors(mid, View()); }
      hide Inv, AllSynced, PassState, Swept, FollowsReplay, Bounded;
      ReconciledAtEnd(start, mid, View(), store.faults == faults);
      ReconcileFollows(start, View(), lossy);
      ReconcileKeepsBounds(start, View(), store.faults == faults);
      if store.faults == faults {
        ReachedIsOwnTarget(start, View());
        TargetServes(View());
      }
      hide AtTarget, Reconciled;
    }

    lemma SameErrors(v: Agent, w: Agent)
      requires NoErrors(v, {}) && v.connections == w.connections
      ensures NoErrors(w, {})
    {
      assert forall t: U32 :: Owned(w, t) ==> Owned(v, t);
    }

    lemma SameMapsReach(u: Agent, v: Agent, w: Agent, off: set<U32>)
      requires ReachedBut(u, v, off) && v.maps == w.maps && v.netns == w.netns
      ensures ReachedBut(u, w, off)
    {
      hide IsTarget, SlotOf;
      forall t: U32 | t !in off ensures Reached(u, w, t) { assert Reached(u, v, t); }
    }

    /** Judges an assignment for a context, looking at the others in any order. */
    method Judge(raw: Assignment) returns (why: Option<Refusal>)
      requires ValidAssignment(raw)
      ensures why == Verdict(contexts, interfaces, raw)
    {
      hide ValidAssignment, Canonical;
      var a := Canonical(raw);
      if a.spec.legA !in interfaces || a.spec.legB !in interfaces {
        return Some(AddressUnknown);
      }
      if a.spec.id in contexts {
        var last := contexts[a.spec.id];
        return if last.deleting then Some(DeletionPending)
          else if last.assignment.spec != a.spec then Some(SpecChanged)
          else if a.generation < last.assignment.generation
                  || (a.generation == last.assignment.generation && a != last.assignment) then Some(StaleOrConflicting)
          else None;
      }
      if |contexts| >= MAX_CONTEXTS {
        return Some(CapacityReached);
      }
      var todo := contexts.Keys;
      while todo != {}
        invariant todo <= contexts.Keys
        invariant forall id :: id in contexts && id !in todo ==> contexts[id].assignment.spec.flow != a.spec.flow
        decreases |todo|
      {
        var id :| id in todo;
        todo := todo - {id};
        if contexts[id].assignment.spec.flow == a.spec.flow {
          return Some(FlowTaken);
        }
      }
      why := None;
    }

    /** Takes an assignment from the control plane. */
    method Put(raw: Assignment) returns (r: PutResult)
      requires Valid()
      modifies this, store
      ensures Valid() && journal == old(journal) && lossy == old(lossy) && fatal == old(fatal)
      ensures r.Dead? <==> ValidAssignment(raw) && fatal
      ensures !r.Dead? ==> (r.Taken? <==> Verdict(old(contexts), interfaces, raw).None?)
      ensures r.Refused? ==> Verdict(old(contexts), interfaces, raw) == Some(r.why)
      ensures r.Refused? || r.Dead? ==> View() == old(View()) && store.history == old(store.history)
      ensures r.Taken? ==>
        Reconciled(WithContext(old(View()), Canonical(raw)), View(), store.faults == old(store.faults))
      // stored as it was sent, but for the spelling of its addresses
      ensures r.Taken? ==>
        raw.spec.id in contexts && !contexts[raw.spec.id].deleting && TakenAs(raw, contexts[raw.spec.id].assignment)
      ensures r.Taken? && r.clean ==>
        store.faults == old(store.faults) && AtTarget(View(), contexts, connections) && WellServed(View())
      ensures Served(old(Now()), OpPut(raw), store.history)
      ensures old(store.history) <= store.history && store.faults >= old(store.faults)
    {
      hide Inv, AllSynced, FollowsReplay, Reconciled, ValidAssignment, SlotOf, Bounded, AtTarget, Throughout;
      ghost var start := View();
      if !ValidAssignment(raw) {
        NothingSeen(Now(), OpPut(raw), store.history);
        return Refused(Invalid);
      }
      var a := Canonical(raw);
      if fatal {
        NothingSeen(Now(), OpPut(raw), store.history);
        return Dead;
      }
      var verdict := Judge(raw);
      if verdict.Some? {
        NothingSeen(Now(), OpPut(raw), store.history);
        return Refused(verdict.value);
      }
      PutKeepsInv(start, raw);
      PutKeepsBounds(start, raw);
      contexts := contexts[a.spec.id := Context(a, false)];
      accepted := accepted + {a};
      PutFollows(start, a, lossy);
      assert View() == WithContext(start, a);
      var clean := ReconcileLocked();
      KeptContext(WithContext(start, a), View(), store.faults == old(store.faults), a.spec.id);
      CanonicalIsTakenAs(raw);
      hide Canonical, TakenAs, WellServed, ReachedBut, Verdict;
      r := Taken(clean);
    }

    lemma PutFollows(v: Agent, a: Assignment, lossy: set<U32>)
      requires FollowsReplay(v, lossy)
      ensures FollowsReplay(WithContext(v, a), lossy)
    {
      var w := WithContext(v, a);
      forall t: U32 ensures TokenFollows(w, t, t in lossy) { assert TokenFollows(v, t, t in lossy); }
    }

    lemma DeleteFollows(v: Agent, id: string, lossy: set<U32>)
      requires FollowsReplay(v, lossy)
      ensures FollowsReplay(Deleting(v, id), lossy)
    {
      var w := Deleting(v, id);
      forall t: U32 ensures TokenFollows(w, t, t in lossy) { assert TokenFollows(v, t, t in lossy); }
    }

    /** Marks a context for deletion and removes what it owns; without an error it is gone. */
    method Delete(id: string) returns (ok: bool)
      requires Valid()
      modifies this, store
      ensures Valid() && journal == old(journal) && lossy == old(lossy) && fatal == old(fatal)
      ensures Reconciled(Deleting(old(View()), id), View(), store.faults == old(store.faults))
      ensures ok ==> store.faults == old(store.faults)
      ensures store.faults == old(store.faults) ==>
        id !in contexts && AtTarget(View(), contexts, connections) && WellServed(View())
      ensures Served(old(Now()), OpDelete(id), store.history)
      ensures old(store.history) <= store.history && store.faults >= old(store.faults)
    {
      hide Inv, AllSynced, FollowsReplay, AtTarget, ObservationsKept, OutsideSame, Bounded, Throughout;
      ghost var start := View();
      DeleteKeepsInv(start, id);
      DeleteKeepsBounds(start, id);
      DeleteFollows(start, id, lossy);
      if id in contexts {
        contexts := contexts[id := contexts[id].(deleting := true)];
      }
      assert View() == Deleting(start, id);
      ok := ReconcileLocked();
    }

    method Retry() returns (ok: bool)
      requires Valid()
      modifies this, store
      ensures Valid() && journal == old(journal) && lossy == old(lossy) && fatal == old(fatal)
      ensures Reconciled(old(View()), View(), store.faults == old(store.faults))
      ensures ok ==> store.faults == old(store.faults)
      ensures store.faults == old(store.faults) ==>
        AtTarget(View(), contexts, connections) && WellServed(View()) && (ok <==> AllServiceable(old(View())))
      ensures exists off :: |off| <= store.faults - old(store.faults) && ReachedBut(old(View()), View(), off)
      ensures ok ==> NoErrors(View(), {})
      ensures AtTarget(old(View()), old(contexts), old(connections)) ==> store.history == old(store.history)
      ensures Served(old(Now()), OpRetry, store.history)
      ensures old(store.history) <= store.history && store.faults >= old(store.faults)
    {
      hide Inv, AllSynced, FollowsReplay, Bounded, Reconciled, AtTarget, Throughout, AllServiceable;
      ok := ReconcileLocked();
    }

    method Fail()
      requires Valid()
      modifies this`fatal
      ensures Valid() && fatal && View() == old(View()) && lossy == old(lossy)
    {
      fatal := true;
    }

    /** Records an event before reconciling, so that a store failure never loses it. */
    method Observe(e: PMEvent) returns (r: ObserveResult)
      requires Valid()
      modifies this, store
      ensures Valid() && fatal == old(fatal)
      ensures r.Ignored? || r.Stopped? ==> View() == old(View()) && lossy == old(lossy)
      ensures r.Stopped? <==> Relevant(e.kind) && fatal
      ensures r.Ignored? <==> !r.Stopped? && Ignores(old(connections), e)
      ensures r.Lost? <==> !fatal && !Ignores(old(connections), e) && Refuses(old(connections), e)
      ensures r.Lost? ==>
        && View() == old(View()).(connections := AfterRefusal(old(connections), e))
        && lossy == AlsoLost(old(lossy), old(connections), e)
      ensures !r.Accepted? ==> store.history == old(store.history)
      ensures r.Accepted? ==> lossy == Relearned(old(lossy), e)
      ensures r.Accepted? ==> Reconciled(WithEvent(old(View()), e), View(), store.faults == old(store.faults))
      ensures r.Accepted? && store.faults == old(store.faults) ==>
        AtTarget(View(), contexts, connections) && WellServed(View())
      ensures e.kind == 3 && !fatal ==> r.Accepted?
      ensures e.kind == 3 && !fatal && store.faults == old(store.faults) ==> e.token !in connections
      ensures Served(old(Now()), OpObserve(e), store.history)
      ensures old(store.history) <= store.history && store.faults >= old(store.faults)
    {
      hide Inv, AllSynced, FollowsReplay, Reconciled, SlotOf, Bounded, AtTarget, Throughout, AlsoLost;
      hide WellServed, Relearned;
      ghost var start := View();
      NothingSeen(Now(), OpObserve(e), store.history);
      if !Relevant(e.kind) {
        return Ignored;
      }
      if fatal {
        return Stopped;
      }
      if e.kind != CLOSED {
        if e.token !in connections {
          if e.kind == SUB_CLOSED {
            return Ignored;
          }
          if |connections| >= MAX_CONNECTIONS {
            RefusalKeeps(start, e, lossy);
            RefusalKeepsBounds(start, e);
            lossy := AlsoLost(lossy, connections, e);
            return Lost;
          }
        } else if Refuses(connections, e) {
          RefusalKeeps(start, e, lossy);
          RefusalKeepsBounds(start, e);
          lossy := AlsoLost(lossy, connections, e);
          connections := AfterRefusal(connections, e);
          return Lost;
        }
      }
      Accept(e);
      r := Accepted;
    }

    /** Records an event and reconciles, whatever comes of that. */
    method Accept(e: PMEvent)
      requires Valid() && Relevant(e.kind) && !Ignores(connections, e) && !Refuses(connections, e) && !fatal
      modifies this, store
      ensures Valid() && fatal == old(fatal) && lossy == Relearned(old(lossy), e)
      ensures Reconciled(WithEvent(old(View()), e), View(), store.faults == old(store.faults))
      ensures store.faults == old(store.faults) ==>
        AtTarget(View(), contexts, connections) && WellServed(View()) && (e.kind == 3 ==> e.token !in connections)
      ensures Served(old(Now()), OpObserve(e), store.history)
      ensures old(store.history) <= store.history && store.faults >= old(store.faults)
    {
      hide Inv, AllSynced, FollowsReplay, Reconciled, SlotOf, Bounded, AtTarget, Throughout, AlsoLost;
      hide WellServed, ReachedBut, AllServiceable, Relearned;
      ghost var start := View();
      ObserveKeepsInv(start, e);
      ObserveKeepsBounds(start, e);
      ObserveFollows(start, e, lossy);
      Record(e);
      lossy := Relearned(lossy, e);
      var ok := ReconcileLocked();
      if e.kind == CLOSED && store.faults == old(store.faults) { ClosedIsGone(start, e, View()); }
    }

    lemma ClosedIsGone(v: Agent, e: PMEvent, w: Agent)
      requires e.kind == CLOSED && Reconciled(WithEvent(v, e), w, true)
      ensures e.token !in w.connections
    {
      hide AtTarget, OutsideSame;
    }

    method Record(e: PMEvent)
      requires !Ignores(connections, e) && !Refuses(connections, e)
      modifies this`connections, this`journal
      ensures View() == WithEvent(old(View()), e)
    {
      journal := journal + [e];
      if e.kind == CLOSED {
        if e.token in connections {
          connections := connections[e.token := connections[e.token].(closed := true)];
        }
        return;
      }
      var c := if e.token in connections then connections[e.token] else NEW_CONNECTION;
      if e.kind == ESTABLISHED {
        c := c.(initial := Some(e));
      }
      if e.kind == SUB_CLOSED {
        c := c.(flows := c.flows - {EventFlow(e)});
      } else {
        c := c.(flows := c.flows[EventFlow(e) := e]);
      }
      connections := connections[e.token := c];
    }

    /** Removes every binding at shutdown. Without an error the namespace's part of the maps
        is empty. */
    method Cleanup() returns (ok: bool)
      requires Valid()
      modifies store
      ensures Valid() && View() == old(View()).(maps := store.maps)
      ensures ok ==> forall key: ConnKey :: key.netns == netns ==> SlotOf(store.maps, key) == EMPTY_SLOT
      ensures !ok ==> store.faults > old(store.faults)
      // it goes on after a refusal, and each spoils at most one connection
      ensures exists left :: |left| <= store.faults - old(store.faults) && EmptyExcept(View(), left)
      ensures Served(old(Now()), OpCleanup, store.history)
      ensures old(store.history) <= store.history && store.faults >= old(store.faults)
    {
      hide Inv, AllSynced, SlotOf, FollowsReplay, Bounded, EmptyExcept, OnlyToken, Throughout;
      ghost var start, faults, before := View(), store.faults, store.history;
      var todo := connections.Keys;
      ghost var left: set<U32> := {};
      ok := true;
      AllOwnedPending(start);
      assert todo + left == todo;
      BoundsElsewhere(start);
      NothingVisited(start, before);
      while todo != {}
        invariant store.Valid() && Inv(View()) && AllSynced(View()) && todo <= connections.Keys
        invariant store.faults >= faults && (!ok ==> store.faults > faults)
        invariant View() == start.(maps := store.maps)
        invariant |left| <= store.faults - faults && (ok ==> left == {}) && EmptyExcept(View(), todo + left)
        invariant before <= store.history && Throughout(start, store.history, |before|)
        decreases |todo|
      {
        var token :| token in todo;
        ghost var last, written := View(), store.history;
        var gone := UnbindOne(token);
        ok := ok && gone;
        OneMoreEmpty(last, View(), todo, left, token);
        MoreSeen(start, last, written, store.history, |before|);
        if SlotAt(View(), token) != EMPTY_SLOT { left := left + {token}; }
        todo := todo - {token};
      }
      assert todo + left == left;
      FollowsElsewhere(start, View(), lossy);
      if ok { AllEmpty(View()); }
    }

    /** Removes the binding of one connection, if it is owned. */
    method UnbindOne(token: U32) returns (gone: bool)
      requires store.Valid() && Inv(View()) && AllSynced(View()) && token in connections
      modifies store
      ensures store.Valid() && Inv(View()) && AllSynced(View()) && View() == old(View()).(maps := store.maps)
      ensures OnlyToken(old(View()), View(), token)
      ensures if gone then store.faults == old(store.faults) && SlotAt(View(), token) == EMPTY_SLOT
              else store.faults > old(store.faults)
      ensures old(store.history) <= store.history && Throughout(old(View()), store.history, |old(store.history)|)
    {
      hide Inv, AllSynced, SlotOf, OnlyToken, Removing, SameElsewhere, Accounted;
      ghost var before := View();
      if connections[token].owner == "" {
        NotOwnedIsEmpty(before, token);
        NoStep(before, token);
        return true;
      }
      ghost var left;
      gone, left := DeleteLive(ConnKey(netns, token, 0), store);
      forall i | |old(store.history)| <= i < |store.history|
        ensures Accounted(before, store.history[i])
      {
        RemovingAccounted(before, store.history[i], token);
      }
      LocalStep(before, View(), token);
      UnbindKeeps(before, View(), token);
    }

    lemma MoreSeen(u: Agent, v: Agent, before: seq<Content>, history: seq<Content>, from: nat)
      requires Throughout(u, before, from) && before <= history
      requires v == u.(maps := v.maps) && Throughout(v, history, |before|)
      ensures Throughout(u, history, from)
    {
      hide Accounted;
      forall i | from <= i < |history|
        ensures Accounted(u, history[i])
      {
        if i >= |before| { SameMomentAccounts(u, v, history[i]); }
      }
    }

    lemma SameMomentAccounts(u: Agent, v: Agent, m: Content)
      requires v == u.(maps := v.maps) && Accounted(v, m)
      ensures Accounted(u, m)
    {
      hide SlotOf;
      forall key: ConnKey | key.netns == u.netns
        ensures KeyAccounted(u, m, key)
      {
        assert KeyAccounted(v, m, key);
        if SlotOf(m, key) != EMPTY_SLOT {
          var id :| Justifies(v, key.token, id, SlotOf(m, key));
          hide NotAhead, Issued, Provenance, Matches;
          assert Justifies(u, key.token, id, SlotOf(m, key));
        }
      }
    }

    lemma BoundsElsewhere(v: Agent)
      requires Bounded(v)
      ensures forall m: Content :: Bounded(v.(maps := m))
    {
    }

    lemma FollowsElsewhere(v: Agent, w: Agent, lossy: set<U32>)
      requires FollowsReplay(v, lossy) && w == v.(maps := w.maps)
      ensures FollowsReplay(w, lossy)
    {
      forall t: U32 ensures TokenFollows(w, t, t in lossy) { assert TokenFollows(v, t, t in lossy); }
    }

    ghost predicate EmptyExcept(v: Agent, todo: set<U32>) {
      forall t: U32 :: t !in todo ==> SlotAt(v, t) == EMPTY_SLOT
    }

    lemma AllOwnedPending(v: Agent)
      requires Inv(v)
      ensures EmptyExcept(v, v.connections.Keys)
    {
      forall t: U32 | t !in v.connections ensures SlotAt(v, t) == EMPTY_SLOT { NotOwnedIsEmpty(v, t); }
    }

    lemma OneMoreEmpty(v: Agent, w: Agent, todo: set<U32>, left: set<U32>, token: U32)
      requires EmptyExcept(v, todo + left) && OnlyToken(v, w, token)
      ensures EmptyExcept(w, (todo - {token}) + if SlotAt(w, token) == EMPTY_SLOT then left else left + {token})
    {
      hide SlotOf;
      forall t: U32 | t !in (todo - {token}) + if SlotAt(w, token) == EMPTY_SLOT then left else left + {token}
        ensures SlotAt(w, t) == EMPTY_SLOT
      {
        if t != token { OtherTokens(v, w, token, t); }
      }
    }

    lemma AllEmpty(v: Agent)
      requires Inv(v) && EmptyExcept(v, {})
      ensures forall key: ConnKey :: key.netns == v.netns ==> SlotOf(v.maps, key) == EMPTY_SLOT
    {
      forall key: ConnKey | key.netns == v.netns
        ensures SlotOf(v.maps, key) == EMPTY_SLOT
      {
        if key.reserved == 0 {
          assert key == KeyOf(v, key.token) && SlotAt(v, key.token) == EMPTY_SLOT;
        }
      }
    }

    /** Once a reconcile has returned without an error, every connection that a context serves
        and whose subflows can be steered is owned by that context and will be reported ready
        if the store answers. */
    lemma CleanIsReady(v: Agent, id: string, token: U32)
      requires Inv(v) && WellServed(v) && NoErrors(v, {})
      requires Serves(v, id, token)
      requires var a := v.contexts[id].assignment;
        a.spec.legA in v.ifs && a.spec.legB in v.ifs && Steerable(v.connections[token].flows.Values, a, v.ifs)
      ensures v.connections[token].owner == id && !v.connections[token].failed && !v.connections[token].closed
      ensures !v.contexts[id].deleting && SlotAt(v, token).policy.Some?
      ensures SlotAt(v, token).policy.value.generation == v.contexts[id].assignment.generation
    {
      assert TokenServed(v, token);
      assert ConnKey(v.netns, token, 0) == KeyOf(v, token);
      hide WellServed, Steerable, Justified;
      assert TokenOk(v, token);
      assert Owned(v, token);
      UniqueMatch(v.contexts, v.ifs, v.connections[token].initial.value, id, v.connections[token].owner);
    }

    /** The readiness an owned connection is reported with. Ready is never said of maps that
        differ from the owner's current policy and the paths planned from the subflows
        recorded now. */
    method BindingReady(token: U32) returns (ready: bool)
      requires Valid() && token in connections && connections[token].owner in contexts
      modifies store`faults
      ensures Valid() && View() == old(View()) && store.faults >= old(store.faults)
      ensures ready ==>
        var c := connections[token]; var a := contexts[c.owner].assignment;
        && SlotAt(View(), token) == Slot(Some(Derived(a)), WantedPaths(c.flows.Values, a, KeyOf(View(), token)))
        && EndpointsOn(c.flows.Values, a, 0) != {} && EndpointsOn(c.flows.Values, a, 1) != {}
        && !c.closed && !contexts[c.owner].deleting
      // and it is said whenever the store answers and the policy is current
      ensures store.faults == old(store.faults) ==>
        var c := connections[token]; var live := SlotAt(View(), token).policy;
        (ready <==> live.Some? && live.value.generation == contexts[c.owner].assignment.generation
                    && !c.failed && !c.closed && !contexts[c.owner].deleting)
    {
      hide Inv, AllSynced, FollowsReplay, Bounded, WantedPaths, EndpointsOn, Derived, ContextsOk;
      IdsAreNames(View());
      ghost var v := View();
      var c, desired := connections[token], contexts[connections[token].owner];
      var key := ConnKey(netns, token, 0);
      var p := store.LookupPolicy(key);
      ready := p.Found? && p.value.generation == desired.assignment.generation && !c.failed && !c.closed
               && !desired.deleting;
      var paths := store.ListPaths(key);
      if paths.None? {
        ready := false;
      }
      if ready {
        ReadyIsSound(v, token);
      }
    }
  }

  /** Every run, with any store operation refused, stays in valid states, and is told by its
      moments: each follows from the one before by its operation, and all that ever becomes
      visible is accounted for by the state that the operation at work took up. */
  method Run(d: Daemon, ops: seq<Operation>) returns (ghost moments: seq<Moment>)
    requires d.Valid()
    modifies d, d.store
    ensures d.Valid() && old(d.store.history) <= d.store.history
    ensures Chronicle(moments, ops, d.store.history)
    ensures moments[0] == old(d.Now()) && moments[|ops|] == d.Now()
  {
    moments := [d.Now()];
    d.NowPassed();
    Begins(d.Now(), d.store.history);
    assert ops[..0] == [];
    hide Chronicle, Daemon.Valid;
    for i := 0 to |ops|
      invariant d.Valid() && old(d.store.history) <= d.store.history && |moments| == i + 1
      invariant Chronicle(moments, ops[..i], d.store.history)
      invariant moments[0] == old(d.Now()) && moments[i] == d.Now()
    {
      moments := NextMoment(d, ops[i], ops[..i], moments);
      assert ops[..i] + [ops[i]] == ops[..i + 1];
    }
    assert ops[..|ops|] == ops;
  }

  method NextMoment(d: Daemon, op: Operation, ghost done: seq<Operation>, ghost before: seq<Moment>)
    returns (ghost moments: seq<Moment>)
    requires d.Valid() && Chronicle(before, done, d.store.history) && |before| == |done| + 1
    requires before[|done|] == d.Now()
    modifies d, d.store
    ensures d.Valid() && old(d.store.history) <= d.store.history
    ensures moments == before + [d.Now()] && Chronicle(moments, done + [op], d.store.history)
  {
    hide Chronicle, Daemon.Valid, Follows, Served, Passed;
    Step(d, op);
    d.NowPassed();
    Continues(before, done, old(d.store.history), op, d.Now(), d.store.history);
    moments := before + [d.Now()];
  }

  method Step(d: Daemon, op: Operation)
    requires d.Valid()
    modifies d, d.store
    ensures d.Valid() && old(d.store.history) <= d.store.history
    ensures Follows(old(d.Now()), op, d.Now())
    ensures Served(old(d.Now()), op, d.store.history)
  {
    hide Inv, AllSynced, FollowsReplay, Bounded, Accounted, AtTarget, Reconciled, Served, ValidAssignment;
    NothingSeen(d.Now(), op, d.store.history);
    match op {
      case OpPut(a) => var r := d.Put(a);
      case OpDelete(id) => var ok := d.Delete(id);
      case OpObserve(e) => var r := d.Observe(e);
      case OpRetry => var ok := d.Retry();
      case OpFail => d.Fail();
      case OpCleanup => var ok := d.Cleanup();
      case OpStatus(token) =>
        if token in d.connections && d.connections[token].owner in d.contexts {
          var ready := d.BindingReady(token);
        }
    }
  }
}
