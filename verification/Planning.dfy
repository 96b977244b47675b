/** From observed subflows to the two legs' endpoints, and from there to the maps. */
module Planning {
  import opened Words
  import opened Events
  import opened Maps
  import opened Live
  import opened ControlPlane

  function LegOf(a: Assignment, address: Address): Option<U32> {
    if address == a.spec.legA.localAddress then Some(0)
    else if address == a.spec.legB.localAddress then Some(1)
    else None
  }

  function EndpointOf(e: PMEvent): Endpoint {
    Endpoint(e.localId, e.remoteId)
  }

  /** The endpoints observed with a leg's local address. */
  function EndpointsOn(events: set<PMEvent>, a: Assignment, leg: U32): set<Endpoint> {
    set e | e in events && LegOf(a, e.localAddress) == Some(leg) :: EndpointOf(e)
  }

  /** The event names an interface other than the one its leg is declared on. */
  predicate IndexDisagrees(e: PMEvent, a: Assignment, ifs: Interfaces)
    requires Admitted(a, ifs)
  {
    match LegOf(a, e.localAddress)
    case None => false
    case Some(leg) => e.ifIndex != 0 && e.ifIndex != ifs[if leg == 0 then a.spec.legA else a.spec.legB]
  }

  /** Observations no plan can be made from; said without any order of the events. */
  ghost predicate Conflict(events: set<PMEvent>, a: Assignment, ifs: Interfaces)
    requires Admitted(a, ifs)
  {
    || (exists e :: e in events && IndexDisagrees(e, a, ifs))
    || !(EndpointsOn(events, a, 0) !! EndpointsOn(events, a, 1))
  }

  /** The path entries for two sets of endpoints. */
  function Wanted(epsA: set<Endpoint>, epsB: set<Endpoint>, generation: U32, key: ConnKey): Paths {
    var a := set ep | ep in epsA :: PathKey(key, ep.localId, ep.remoteId);
    var b := set ep | ep in epsB :: PathKey(key, ep.localId, ep.remoteId);
    map k | k in a + b :: MapPath(generation, if k in b then 1 else 0)
  }

  function WantedPaths(events: set<PMEvent>, a: Assignment, key: ConnKey): Paths {
    Wanted(EndpointsOn(events, a, 0), EndpointsOn(events, a, 1), a.generation, key)
  }

  ghost predicate Bindable(events: set<PMEvent>, a: Assignment, ifs: Interfaces)
    requires Admitted(a, ifs)
  {
    NamesTrimmed(a) && !Conflict(events, a, ifs) && EndpointsOn(events, a, 0) != {} && EndpointsOn(events, a, 1) != {}
  }

  /** The observations leave nothing to complain of: no contradiction, and no complete
      topology under a name that the live transaction refuses. */
  ghost predicate Plannable(events: set<PMEvent>, a: Assignment, ifs: Interfaces)
    requires Admitted(a, ifs)
  {
    !Conflict(events, a, ifs) && (NamesTrimmed(a) || EndpointsOn(events, a, 0) == {} || EndpointsOn(events, a, 1) == {})
  }

  /** What the maps should hold for a connection assigned to `a`: the derived policy with the
      planned paths, or nothing while the topology is incomplete or contradictory, or if the
      live transaction refuses an interface name. */
  ghost function SlotTarget(events: set<PMEvent>, a: Assignment, ifs: Interfaces, key: ConnKey): Slot
    requires Admitted(a, ifs)
  {
    if Bindable(events, a, ifs) then Slot(Some(Derived(a)), WantedPaths(events, a, key)) else EMPTY_SLOT
  }

  /** Where the agent keeps its promise to bind: of an admitted assignment with consistent
      observations on both legs, exactly if both names pass the live validator. */
  lemma BoundExactly(events: set<PMEvent>, a: Assignment, ifs: Interfaces, key: ConnKey)
    requires Admitted(a, ifs) && !Conflict(events, a, ifs)
    requires EndpointsOn(events, a, 0) != {} && EndpointsOn(events, a, 1) != {}
    ensures SlotTarget(events, a, ifs, key) == Slot(Some(Derived(a)), WantedPaths(events, a, key)) <==> NamesTrimmed(a)
  {
    hide Conflict, EndpointsOn, Derived, WantedPaths;
  }

  /** The endpoints gathered from the events seen so far. */
  ghost predicate Gathered(events: set<PMEvent>, a: Assignment, ifs: Interfaces, seen: map<Endpoint, U32>,
                           epsA: seq<Endpoint>, epsB: seq<Endpoint>)
    requires Admitted(a, ifs)
  {
    && !Conflict(events, a, ifs)
    && (forall p :: p in epsA <==> p in EndpointsOn(events, a, 0))
    && (forall p :: p in epsB <==> p in EndpointsOn(events, a, 1))
    && (forall p :: p in seen <==> p in epsA || p in epsB)
    && (forall p :: p in epsA ==> seen[p] == 0) && (forall p :: p in epsB ==> seen[p] == 1)
    && NoDuplicates(epsA) && NoDuplicates(epsB)
  }

  lemma MoreEvents(events: set<PMEvent>, e: PMEvent, a: Assignment, leg: U32)
    ensures EndpointsOn(events + {e}, a, leg) ==
      EndpointsOn(events, a, leg) + if LegOf(a, e.localAddress) == Some(leg) then {EndpointOf(e)} else {}
  {
  }

  lemma ConflictsGrow(events: set<PMEvent>, more: set<PMEvent>, a: Assignment, ifs: Interfaces)
    requires Admitted(a, ifs) && events <= more && Conflict(events, a, ifs)
    ensures Conflict(more, a, ifs)
  {
    if !(EndpointsOn(events, a, 0) !! EndpointsOn(events, a, 1)) {
      var p :| p in EndpointsOn(events, a, 0) && p in EndpointsOn(events, a, 1);
      assert p in EndpointsOn(more, a, 0) && p in EndpointsOn(more, a, 1);
    }
  }

  lemma NewEventConflicts(done: set<PMEvent>, e: PMEvent, a: Assignment, ifs: Interfaces)
    requires Admitted(a, ifs) && !Conflict(done, a, ifs) && !IndexDisagrees(e, a, ifs)
    ensures Conflict(done + {e}, a, ifs) <==>
      match LegOf(a, e.localAddress)
      case None => false
      case Some(leg) => EndpointOf(e) in EndpointsOn(done, a, 1 - leg)
  {
    MoreEvents(done, e, a, 0);
    MoreEvents(done, e, a, 1);
    hide EndpointsOn;
    assert forall x :: x in done + {e} ==> !IndexDisagrees(x, a, ifs);
  }

  /** An event off both legs, or one of an endpoint already gathered on its leg. */
  lemma GatherOld(done: set<PMEvent>, e: PMEvent, a: Assignment, ifs: Interfaces, seen: map<Endpoint, U32>,
                  epsA: seq<Endpoint>, epsB: seq<Endpoint>)
    requires Admitted(a, ifs) && Gathered(done, a, ifs, seen, epsA, epsB) && !IndexDisagrees(e, a, ifs)
    requires match LegOf(a, e.localAddress)
      case None => true
      case Some(leg) => EndpointOf(e) in seen && seen[EndpointOf(e)] == leg
    ensures Gathered(done + {e}, a, ifs, seen, epsA, epsB)
  {
    NewEventConflicts(done, e, a, ifs);
    MoreEvents(done, e, a, 0);
    MoreEvents(done, e, a, 1);
    hide EndpointsOn, Conflict;
  }

  lemma GatherNew(done: set<PMEvent>, e: PMEvent, a: Assignment, ifs: Interfaces, seen: map<Endpoint, U32>,
                  epsA: seq<Endpoint>, epsB: seq<Endpoint>, leg: U32)
    requires Admitted(a, ifs) && Gathered(done, a, ifs, seen, epsA, epsB) && !IndexDisagrees(e, a, ifs)
    requires LegOf(a, e.localAddress) == Some(leg) && EndpointOf(e) !in seen
    ensures Gathered(done + {e}, a, ifs, seen[EndpointOf(e) := leg],
                     if leg == 0 then epsA + [EndpointOf(e)] else epsA,
                     if leg == 0 then epsB else epsB + [EndpointOf(e)])
  {
    NewEventConflicts(done, e, a, ifs);
    MoreEvents(done, e, a, 0);
    MoreEvents(done, e, a, 1);
    hide EndpointsOn, Conflict;
  }

  lemma GatherClash(done: set<PMEvent>, e: PMEvent, a: Assignment, ifs: Interfaces, seen: map<Endpoint, U32>,
                    epsA: seq<Endpoint>, epsB: seq<Endpoint>, leg: U32)
    requires Admitted(a, ifs) && Gathered(done, a, ifs, seen, epsA, epsB) && !IndexDisagrees(e, a, ifs)
    requires LegOf(a, e.localAddress) == Some(leg) && EndpointOf(e) in seen && seen[EndpointOf(e)] != leg
    ensures Conflict(done + {e}, a, ifs)
  {
    NewEventConflicts(done, e, a, ifs);
    hide EndpointsOn, Conflict;
  }

  lemma NothingGathered(a: Assignment, ifs: Interfaces)
    requires Admitted(a, ifs)
    ensures Gathered({}, a, ifs, map[], [], [])
  {
  }

  lemma GatheredAgrees(events: set<PMEvent>, a: Assignment, ifs: Interfaces, seen: map<Endpoint, U32>,
                       epsA: seq<Endpoint>, epsB: seq<Endpoint>)
    requires Admitted(a, ifs) && Gathered(events, a, ifs, seen, epsA, epsB)
    ensures !Conflict(events, a, ifs)
  {
  }

  /** Plans the two legs, taking the observed subflows in any order; fails exactly when they
      contradict each other or the declared interfaces. */
  method Plan(events: set<PMEvent>, a: Assignment, ifs: Interfaces)
    returns (r: Option<LivePolicy>, ghost seen: map<Endpoint, U32>)
    requires Admitted(a, ifs)
    ensures r.None? <==> Conflict(events, a, ifs)
    ensures r.Some? ==> r.value == LivePolicyOf(a, r.value.legA.endpoints, r.value.legB.endpoints)
    ensures r.Some? ==> Gathered(events, a, ifs, seen, r.value.legA.endpoints, r.value.legB.endpoints)
  {
    var found: map<Endpoint, U32> := map[];
    var epsA: seq<Endpoint>, epsB: seq<Endpoint> := [], [];
    var todo := events;
    seen := map[];
    NothingGathered(a, ifs);
    assert events - todo == {};
    while todo != {}
      invariant todo <= events && Gathered(events - todo, a, ifs, found, epsA, epsB)
      decreases |todo|
    {
      hide Gathered, Conflict;
      var e :| e in todo;
      ghost var done := events - todo;
      todo := todo - {e};
      assert events - todo == done + {e};
      var leg := LegOf(a, e.localAddress);
      if leg.Some? {
        var index := if leg.value == 0 then ifs[a.spec.legA] else ifs[a.spec.legB];
        if e.ifIndex != 0 && e.ifIndex != index {
          DisagreementConflicts(events, e, a, ifs);
          return None, map[];
        }
        var pair := EndpointOf(e);
        if pair in found {
          if found[pair] != leg.value {
            GatherClash(done, e, a, ifs, found, epsA, epsB, leg.value);
            ConflictsGrow(done + {e}, events, a, ifs);
            return None, map[];
          }
          GatherOld(done, e, a, ifs, found, epsA, epsB);
        } else {
          GatherNew(done, e, a, ifs, found, epsA, epsB, leg.value);
          found := found[pair := leg.value];
          if leg.value == 0 { epsA := epsA + [pair]; } else { epsB := epsB + [pair]; }
        }
      } else {
        GatherOld(done, e, a, ifs, found, epsA, epsB);
      }
    }
    assert events - todo == events;
    GatheredAgrees(events, a, ifs, found, epsA, epsB);
    r, seen := Some(LivePolicyOf(a, epsA, epsB)), found;
  }

  lemma DisagreementConflicts(events: set<PMEvent>, e: PMEvent, a: Assignment, ifs: Interfaces)
    requires Admitted(a, ifs) && e in events && IndexDisagrees(e, a, ifs)
    ensures Conflict(events, a, ifs)
  {
  }
}
