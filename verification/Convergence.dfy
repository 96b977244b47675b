/** The order in which policies and events arrive does not matter. */
module Convergence {
  import opened Words
  import opened Events
  import opened Maps
  import opened ControlPlane
  import opened Planning
  import opened AgentState
  import opened AgentSteps
  import opened Replay
  import opened AgentOperations
  import opened AgentRuns
  import opened AgentDaemon

  /** The target looks at a connection's observations only. */
  lemma TargetByObservation(slot: Slot, u: Agent, x: Agent, token: U32)
    requires u.contexts == x.contexts && u.ifs == x.ifs && u.netns == x.netns
    requires token in u.connections && token in x.connections
    requires SameObservation(u.connections[token], x.connections[token])
    requires IsTarget(slot, u.contexts, u.connections[token], u.ifs, KeyOf(u, token))
    ensures IsTarget(slot, x.contexts, x.connections[token], x.ifs, KeyOf(x, token))
  {
    var c, d := u.connections[token], x.connections[token];
    assert forall id :: id in u.contexts ==> (Claims(u.contexts[id], c) <==> Claims(x.contexts[id], d));
    hide SlotTarget, Matches;
  }

  lemma ClosedIsEmpty(slot: Slot, u: Agent, token: U32)
    requires token in u.connections && u.connections[token].closed
    requires IsTarget(slot, u.contexts, u.connections[token], u.ifs, KeyOf(u, token))
    ensures slot == EMPTY_SLOT
  {
    assert forall id :: id in u.contexts ==> !Claims(u.contexts[id], u.connections[token]);
  }

  /** Two agents with the same contexts whose journals replay alike end with the same maps
      after a reconcile without refused store operations, whatever their histories, owners,
      recorded errors and previous map contents were. */
  lemma OrderIndependence(u: Agent, v: Agent, x: Agent, w: Agent, lossyU: set<U32>, lossyX: set<U32>, key: ConnKey)
    requires u.contexts == x.contexts && u.ifs == x.ifs && u.netns == x.netns == key.netns
    requires FollowsReplay(u, lossyU) && FollowsReplay(x, lossyX)
    requires key.token !in lossyU && key.token !in lossyX
    requires Replayed(u.journal, key.token) == Replayed(x.journal, key.token)
    requires Reconciled(u, v, true) && Reconciled(x, w, true)
    ensures SlotOf(v.maps, key) == SlotOf(w.maps, key)
  {
    if key.reserved == 0 {
      var t := key.token;
      assert key == KeyOf(v, t) == KeyOf(w, t);
      TargetAtToken(u, v, t);
      TargetAtToken(x, w, t);
      assert TokenFollows(u, t, t in lossyU) && TokenFollows(x, t, t in lossyX);
      hide SlotOf, IsTarget, Reconciled, Replayed;
      if t in u.connections && !u.connections[t].closed {
        TargetByObservation(SlotAt(v, t), u, x, t);
        TargetUnique(SlotAt(v, t), SlotAt(w, t), x, t);
      }
    }
  }

  /** The same of two agents and what they report: whatever runs have brought them to equal
      contexts and alike journals, once a retry of each returns without an error the maps
      agree on every connection of the namespace whose establishments were all accepted. */
  method SameMaps(d: Daemon, e: Daemon) returns (ok: bool)
    requires d.Valid() && e.Valid() && d != e && d.store != e.store
    requires d.contexts == e.contexts && d.interfaces == e.interfaces && d.netns == e.netns
    requires forall t: U32 :: Replayed(d.journal, t) == Replayed(e.journal, t)
    modifies d, d.store, e, e.store
    ensures d.Valid() && e.Valid() && d.lossy == old(d.lossy) && e.lossy == old(e.lossy)
    ensures ok ==> forall key: ConnKey :: key.netns == d.netns && key.token !in d.lossy && key.token !in e.lossy ==>
      SlotOf(d.store.maps, key) == SlotOf(e.store.maps, key)
  {
    hide Inv, AllSynced, FollowsReplay, Bounded, Reconciled, AtTarget, Served, Replayed, SlotOf;
    ghost var u, x := d.View(), e.View();
    var okD := d.Retry();
    var okE := e.Retry();
    ok := okD && okE;
    if ok {
      forall key: ConnKey | key.netns == d.netns && key.token !in d.lossy && key.token !in e.lossy
        ensures SlotOf(d.store.maps, key) == SlotOf(e.store.maps, key)
      {
        OrderIndependence(u, d.View(), x, e.View(), d.lossy, e.lossy, key);
      }
    }
  }

  lemma TargetAtToken(u: Agent, v: Agent, t: U32)
    requires Reconciled(u, v, true)
    ensures if t in u.connections && !u.connections[t].closed
            then IsTarget(SlotAt(v, t), u.contexts, u.connections[t], u.ifs, KeyOf(u, t))
            else SlotAt(v, t) == EMPTY_SLOT
  {
    assert KeyOf(u, t) == KeyOf(v, t);
    hide SlotOf, OutsideSame, ObservationsKept;
    if t in u.connections && u.connections[t].closed {
      ClosedIsEmpty(SlotAt(v, t), u, t);
    }
  }

  lemma TargetUnique(a: Slot, b: Slot, x: Agent, t: U32)
    requires t in x.connections
    requires IsTarget(a, x.contexts, x.connections[t], x.ifs, KeyOf(x, t))
    requires IsTarget(b, x.contexts, x.connections[t], x.ifs, KeyOf(x, t))
    ensures a == b
  {
    hide SlotTarget;
    if id :| id in x.contexts && Claims(x.contexts[id], x.connections[t]) {
    }
  }

  /** Events that may be seen in either order: of different connections, or two openings of
      different subflows not both naming the initial one. */
  predicate Commute(e: PMEvent, f: PMEvent) {
    || e.token != f.token
    || (&& e.kind in {ESTABLISHED, SUB_ESTABLISHED} && f.kind in {ESTABLISHED, SUB_ESTABLISHED}
        && EventFlow(e) != EventFlow(f) && !(e.kind == ESTABLISHED && f.kind == ESTABLISHED))
  }

  lemma NextCommutes(r: Option<Record>, e: PMEvent, f: PMEvent)
    requires Commute(e, f) && e.token == f.token
    ensures Next(Next(r, e), f) == Next(Next(r, f), e)
  {
    var flows := if r.None? then map[] else r.value.flows;
    assert flows[EventFlow(e) := e][EventFlow(f) := f] == flows[EventFlow(f) := f][EventFlow(e) := e];
  }

  /** Policy first, events first or subflow first: swapping such events anywhere in the
      journal leaves the replay of every connection as it is. */
  lemma {:induction false} SwappedReplay(before: seq<PMEvent>, e: PMEvent, f: PMEvent, after: seq<PMEvent>, token: U32)
    requires Commute(e, f)
    ensures Replayed(before + [e, f] + after, token) == Replayed(before + [f, e] + after, token)
    decreases |after|
  {
    if after == [] {
      assert before + [e, f] + after == before + [e] + [f];
      assert before + [f, e] + after == before + [f] + [e];
      ReplayedStep(before + [e], f, token);
      ReplayedStep(before, e, token);
      ReplayedStep(before + [f], e, token);
      ReplayedStep(before, f, token);
      hide Replayed, Next;
      if e.token == token && f.token == token {
        NextCommutes(Replayed(before, token), e, f);
      }
    } else {
      var rest, g := after[..|after|-1], after[|after|-1];
      SwappedReplay(before, e, f, rest, token);
      assert before + [e, f] + after == before + [e, f] + rest + [g];
      assert before + [f, e] + after == before + [f, e] + rest + [g];
      ReplayedStep(before + [e, f] + rest, g, token);
      ReplayedStep(before + [f, e] + rest, g, token);
      hide Replayed, Next;
    }
  }

  /** The n-th and the next event have changed places. */
  predicate SwappedAt(s: seq<PMEvent>, t: seq<PMEvent>, n: nat) {
    n + 1 < |s| && Commute(s[n], s[n + 1]) && t == s[..n] + [s[n + 1], s[n]] + s[n + 2..]
  }

  /** Each sequence is the one before with two events, that may be seen in either order,
      swapped. */
  ghost predicate Rearranged(chain: seq<seq<PMEvent>>) {
    |chain| > 1 ==> (exists n: nat :: SwappedAt(chain[0], chain[1], n)) && Rearranged(chain[1..])
  }

  lemma SwapReplays(s: seq<PMEvent>, t: seq<PMEvent>, n: nat, token: U32)
    requires SwappedAt(s, t, n)
    ensures Replayed(s, token) == Replayed(t, token)
  {
    assert s == s[..n] + [s[n], s[n + 1]] + s[n + 2..];
    SwappedReplay(s[..n], s[n], s[n + 1], s[n + 2..], token);
    hide Replayed;
  }

  lemma {:induction false} RearrangedReplay(chain: seq<seq<PMEvent>>, token: U32)
    requires |chain| > 0 && Rearranged(chain)
    ensures Replayed(chain[0], token) == Replayed(chain[|chain|-1], token)
    decreases |chain|
  {
    hide SwappedAt, Replayed;
    if |chain| == 1 {
    } else {
      var n: nat :| SwappedAt(chain[0], chain[1], n);
      SwapReplays(chain[0], chain[1], n, token);
      RearrangedReplay(chain[1..], token);
    }
  }

  // ---- whole runs ----

  /** The assignments of a run, in order. */
  function PutsOf(ops: seq<Operation>): seq<Assignment> {
    if ops == [] then []
    else PutsOf(ops[..|ops|-1]) + if ops[|ops|-1].OpPut? then [ops[|ops|-1].a] else []
  }

  /** The events of a run, in order. */
  function EventsOf(ops: seq<Operation>): seq<PMEvent> {
    if ops == [] then []
    else EventsOf(ops[..|ops|-1]) + if ops[|ops|-1].OpObserve? then [ops[|ops|-1].e] else []
  }

  /** The contexts that a sequence of assignments leaves, each replacing its predecessor. */
  function Placed(puts: seq<Assignment>): Contexts {
    if puts == [] then map[]
    else
      var a := Canonical(puts[|puts|-1]);
      Placed(puts[..|puts|-1])[a.spec.id := Context(a, false)]
  }

  predicate Arrival(op: Operation) {
    op.OpPut? || op.OpObserve? || op.OpRetry?
  }

  predicate Arrivals(ops: seq<Operation>) {
    forall op :: op in ops ==> Arrival(op)
  }

  /** What an agent holds after the assignments and events of a run. */
  ghost predicate Holds(v: Agent, ops: seq<Operation>) {
    v.contexts == Placed(PutsOf(ops)) && v.journal == EventsOf(ops)
  }

  lemma OneMoreArrival(ops: seq<Operation>, op: Operation)
    ensures PutsOf(ops + [op]) == if op.OpPut? then PutsOf(ops) + [op.a] else PutsOf(ops)
    ensures EventsOf(ops + [op]) == if op.OpObserve? then EventsOf(ops) + [op.e] else EventsOf(ops)
  {
    var all := ops + [op];
    assert all[..|all|-1] == ops && all[|all|-1] == op;
  }

  lemma OneMorePut(puts: seq<Assignment>, a: Assignment)
    ensures Placed(puts + [a]) == Placed(puts)[Canonical(a).spec.id := Context(Canonical(a), false)]
  {
    var all := puts + [a];
    assert all[..|all|-1] == puts && all[|all|-1] == a;
  }

  /** A reconcile drops only contexts that are being deleted. */
  lemma ContextsStay(u: Agent, w: Agent, faultFree: bool)
    requires Reconciled(u, w, faultFree) && forall id :: id in u.contexts ==> !u.contexts[id].deleting
    ensures w.contexts == u.contexts && w.journal == u.journal
  {
    hide AtTarget, ObservationsKept, OutsideSame;
  }

  lemma HoldsNext(v: Agent, w: Agent, ops: seq<Operation>, op: Operation, faultFree: bool)
    requires Holds(v, ops)
    requires match op
      case OpPut(a) => Reconciled(WithContext(v, Canonical(a)), w, faultFree)
      case OpObserve(e) => Reconciled(WithEvent(v, e), w, faultFree)
      case OpRetry => Reconciled(v, w, faultFree)
      case _ => false
    ensures Holds(w, ops + [op])
  {
    OneMoreArrival(ops, op);
    NoneDeleting(PutsOf(ops));
    hide Reconciled, Canonical, Recorded, PutsOf, EventsOf, Placed;
    match op
    case OpPut(a) =>
      OneMorePut(PutsOf(ops), a);
      ContextsStay(WithContext(v, Canonical(a)), w, faultFree);
    case OpObserve(e) => ContextsStay(WithEvent(v, e), w, faultFree);
    case OpRetry => ContextsStay(v, w, faultFree);
  }

  lemma {:induction false} NoneDeleting(puts: seq<Assignment>)
    ensures forall id :: id in Placed(puts) ==> !Placed(puts)[id].deleting
    decreases |puts|
  {
    if puts == [] {
    } else {
      NoneDeleting(puts[..|puts|-1]);
    }
  }

  /** A run of assignments, events and retries on a fresh agent, given up if one of them is refused;
      the store may refuse whatever it likes. */
  method Arrive(d: Daemon, ops: seq<Operation>) returns (smooth: bool)
    requires d.Valid() && d.contexts == map[] && d.journal == [] && d.lossy == {} && Arrivals(ops)
    modifies d, d.store
    ensures d.Valid()
    ensures smooth ==> Holds(d.View(), ops) && d.lossy == {}
  {
    assert ops[..0] == [] && Holds(d.View(), []);
    hide Holds, Daemon.Valid;
    for i := 0 to |ops|
      invariant d.Valid() && Holds(d.View(), ops[..i]) && d.lossy == {}
    {
      assert ops[i] in ops && ops[..i] + [ops[i]] == ops[..i + 1];
      var taken := TakeArrival(d, ops[i], ops[..i]);
      if !taken {
        return false;
      }
    }
    assert ops[..|ops|] == ops;
    smooth := true;
  }

  method TakeArrival(d: Daemon, op: Operation, ghost before: seq<Operation>) returns (taken: bool)
    requires d.Valid() && Holds(d.View(), before) && d.lossy == {} && Arrival(op)
    modifies d, d.store
    ensures d.Valid()
    ensures taken ==> Holds(d.View(), before + [op]) && d.lossy == {}
  {
    hide Holds, Reconciled, AtTarget, Served, Inv, AllSynced, FollowsReplay, Bounded, Canonical, Verdict;
    ghost var last, faults := d.View(), d.store.faults;
    if op.OpPut? {
      var r := d.Put(op.a);
      taken := r.Taken?;
    } else if op.OpObserve? {
      var r := d.Observe(op.e);
      taken := r.Accepted?;
    } else {
      var clean := d.Retry();
      taken := true;
    }
    if taken {
      HoldsNext(last, d.View(), before, op, d.store.faults == faults);
    }
  }

  /** Policies first, events first, or the one subflow before the other: two fresh agents that
      take the same assignments and accept the same events, in any interleaving and with
      events that commute in either order, whatever their stores refused and however often
      they retried on the way, have equal maps once a retry of each returns without an error. */
  method SameOutcome(d: Daemon, e: Daemon, opsD: seq<Operation>, opsE: seq<Operation>, ghost chain: seq<seq<PMEvent>>)
    returns (ok: bool)
    requires d.Valid() && d.contexts == map[] && d.journal == [] && d.lossy == {} && Arrivals(opsD)
    requires e.Valid() && e.contexts == map[] && e.journal == [] && e.lossy == {} && Arrivals(opsE)
    requires d != e && d.store != e.store && d.interfaces == e.interfaces && d.netns == e.netns
    requires Placed(PutsOf(opsD)) == Placed(PutsOf(opsE))
    requires |chain| > 0 && chain[0] == EventsOf(opsD) && chain[|chain|-1] == EventsOf(opsE) && Rearranged(chain)
    modifies d, d.store, e, e.store
    ensures d.Valid() && e.Valid()
    ensures ok ==> forall key: ConnKey :: key.netns == d.netns ==>
      SlotOf(d.store.maps, key) == SlotOf(e.store.maps, key)
  {
    hide Inv, AllSynced, FollowsReplay, Bounded, Replayed, SlotOf;
    var smoothD := Arrive(d, opsD);
    if !smoothD {
      return false;
    }
    var smoothE := Arrive(e, opsE);
    if !smoothE {
      return false;
    }
    forall t: U32
      ensures Replayed(d.journal, t) == Replayed(e.journal, t)
    {
      RearrangedReplay(chain, t);
    }
    hide Rearranged, Placed, PutsOf, EventsOf;
    ok := SameMaps(d, e);
  }
}
