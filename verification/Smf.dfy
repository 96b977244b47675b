/** The SMF side: contexts with their generations, delivered to the agent over a wire that
    may lose a request or its reply. */
module SmfServer {
  import opened Words
  import opened ControlPlane
  import opened AgentState
  import opened AgentSteps
  import opened AgentOperations
  import opened AgentRuns
  import opened AgentDaemon
  import opened Delivery
  import opened Replay

  /** What the wire does to one exchange. */
  datatype Wire = RequestLost | ReplyLost | Delivered

  /** What the agent did, if the request reached it. */
  datatype Reply = NoRequest | PutReply(r: PutResult) | DeleteReply(ok: bool)

  /** The agent's answer is a success. */
  predicate Agreed(reply: Reply) {
    match reply
    case NoRequest => false
    case PutReply(r) => r.Taken? && r.clean
    case DeleteReply(ok) => ok
  }

  datatype CreateResult = BadRequest | Conflict | BadGateway | Existing | Created | Pending

  class Server {
    const agent: Daemon
    var records: Records
    var generation: U32
    /** Counts what does not go as it should: the PCF having no valid answer, no generation being
        left, a delivery not being acknowledged; and the deliveries attempted. */
    ghost var outages: nat
    ghost var exhausted: nat
    ghost var undelivered: nat
    ghost var attempts: nat

    ghost predicate Valid()
      reads this, agent, agent.store
    {
      agent.Valid() && Coupled(records, generation, agent.contexts)
    }

    constructor (agent: Daemon)
      requires agent.Valid() && agent.contexts == map[]
      ensures Valid() && this.agent == agent && records == map[] && generation == 0
    {
      this.agent := agent;
      records := map[];
      generation := 0;
      outages, exhausted, undelivered, attempts := 0, 0, 0, 0;
    }

    /** One exchange about a context: PUT its assignment, or DELETE it. */
    method Exchange(id: string) returns (acknowledged: bool, reply: Reply, ghost wire: Wire)
      requires Valid() && id in records
      modifies this`attempts, agent, agent.store
      ensures attempts == old(attempts) + 1
      ensures reply.NoRequest? <==> wire.RequestLost?
      ensures acknowledged <==> wire.Delivered? && Agreed(reply)
      ensures agent.Valid() && Coupled(records, generation, agent.contexts)
      ensures reply.DeleteReply? ==> records[id].deleting
      ensures reply.PutReply? ==> !records[id].deleting
      // what the agent can refuse an SMF assignment for
      ensures reply.PutReply? && reply.r.Refused? ==>
        reply.r.why.AddressUnknown? || reply.r.why.CapacityReached? || reply.r.why.FlowTaken?
      // end to end: a taken assignment is what the reconcile worked towards
      ensures reply.PutReply? && reply.r.Taken? ==>
        Reconciled(WithContext(old(agent.View()), Canonical(records[id].assignment)), agent.View(),
                   agent.store.faults == old(agent.store.faults))
      // an acknowledgement means that the maps are at the target
      ensures acknowledged ==> AtTarget(agent.View(), agent.contexts, agent.connections)
      ensures acknowledged && records[id].deleting ==> id !in agent.contexts
      ensures acknowledged && !records[id].deleting ==>
        id in agent.contexts && agent.contexts[id] == Context(Canonical(records[id].assignment), false)
    {
      hide Coupled, Canonical, AtTarget, ObservationsKept, OutsideSame, Inv, AllSynced, FollowsReplay, Bounded;
      ghost var held := agent.contexts;
      attempts := attempts + 1;
      var fate: Wire := *;
      wire := fate;
      if fate.RequestLost? {
        return false, NoRequest, wire;
      }
      if records[id].deleting {
        DeleteKeeps(records, generation, held, id);
        var ok := agent.Delete(id);
        DroppingKeeps(records, generation, if id in held then held[id := held[id].(deleting := true)] else held, agent.contexts);
        return ok && fate.Delivered?, DeleteReply(ok), wire;
      }
      NeverRefusedAsOutdated(records, generation, held, agent.interfaces, id);
      PutKeeps(records, generation, held, id);
      SameId(records, generation, held, id);
      var r := agent.Put(records[id].assignment);
      if r.Taken? {
        DroppingKeeps(records, generation, held[id := Context(Canonical(records[id].assignment), false)], agent.contexts);
      }
      return r.Taken? && r.clean && fate.Delivered?, PutReply(r), wire;
    }

    lemma SameId(records: Records, generation: U32, held: Contexts, id: string)
      requires Coupled(records, generation, held) && id in records
      ensures Canonical(records[id].assignment).spec.id == id
    {
    }

    function AfterDelivery(before: Records, id: string): Records
      requires id in before
    {
      var r := before[id];
      if r.deleting then before - {id} else before[id := r.(applied := r.assignment.generation, failed := false)]
    }

    /** Delivers the state of a context and takes note of the acknowledgement, which comes
        exactly if nothing is lost and the agent's answer is a success. */
    method Deliver(id: string) returns (ok: bool, ghost reply: Reply, ghost wire: Wire)
      requires Valid() && id in records
      modifies this`records, this`undelivered, this`attempts, agent, agent.store
      ensures Valid() && attempts == old(attempts) + 1
      ensures ok <==> wire.Delivered? && Agreed(reply)
      ensures !ok ==> records == old(records) && undelivered == old(undelivered) + 1
      ensures ok ==> undelivered == old(undelivered) && records == AfterDelivery(old(records), id)
      ensures ok ==> AtTarget(agent.View(), agent.contexts, agent.connections)
    {
      hide Coupled, Canonical, Reconciled, AtTarget, Inv, AllSynced, FollowsReplay, Bounded;
      var answer;
      ok, answer, wire := Exchange(id);
      reply := answer;
      if !ok {
        undelivered := undelivered + 1;
        return;
      }
      if records[id].deleting {
        AcknowledgeDelete(records, generation, agent.contexts, id);
        records := records - {id};
      } else {
        AcknowledgePut(records, generation, agent.contexts, id);
        records := records[id := records[id].(applied := records[id].assignment.generation, failed := false)];
      }
    }

    /** Delivers, and records a failure. */
    method Attempt(id: string) returns (ok: bool)
      requires Valid() && id in records
      modifies this`records, this`undelivered, this`attempts, agent, agent.store
      ensures Valid() && attempts == old(attempts) + 1
      ensures !ok ==> records == old(records)[id := old(records)[id].(failed := true)]
      ensures !ok ==> undelivered == old(undelivered) + 1
      ensures ok ==> undelivered == old(undelivered) && records == AfterDelivery(old(records), id)
      ensures ok ==> AtTarget(agent.View(), agent.contexts, agent.connections)
    {
      hide Coupled, AtTarget, Inv, AllSynced, FollowsReplay, Bounded;
      ghost var reply, wire;
      ok, reply, wire := Deliver(id);
      if !ok {
        MarkKeeps(records[id].(failed := true), id);
        records := records[id := records[id].(failed := true)];
      }
    }

    /** Flags of a record may change, except that deletion is not taken back. */
    lemma MarkKeeps(r: SmfContext, id: string)
      requires Valid() && id in records && r == records[id].(failed := r.failed, deleting := r.deleting)
      requires records[id].deleting ==> r.deleting
      ensures Coupled(records[id := r], generation, agent.contexts)
    {
      hide ValidAssignment, Inv, AllSynced, FollowsReplay, Bounded;
      assert RecordOk(id, records[id], generation);
      ChangeKeeps(records, generation, agent.contexts, id, r, generation);
    }

    /** The operator's policy for a DNN, if the PCF answers with a valid one. */
    method QueryPcf(dnn: string) returns (p: Option<SteerPolicy>)
      ensures p.Some? ==> ValidPolicy(p.value)
    {
      var answer: Option<SteerPolicy> := *;
      p := if answer.Some? && ValidPolicy(answer.value) then answer else None;
    }

    /** The wall clock: whether the last delivery is less than two seconds old. */
    method RecentlyDelivered() returns (recent: bool) {
      recent := *;
    }

    method NextGeneration() returns (g: Option<U32>)
      modifies this`generation
      ensures g.Some? ==> g.value == generation == old(generation) + 1
      ensures g.None? ==> generation == old(generation) == TWO_TO_THE_32 - 1
    {
      if generation == TWO_TO_THE_32 - 1 {
        return None;
      }
      generation := generation + 1;
      g := Some(generation);
    }

    /** `answer` is what the PCF says, if it is asked. */
    method Create(spec: ContextSpec) returns (r: CreateResult, ghost answer: Option<SteerPolicy>)
      requires Valid()
      modifies this, agent, agent.store
      ensures Valid() && generation >= old(generation)
      ensures r.BadRequest? <==> !ValidSpec(spec)
      ensures ValidSpec(spec) && spec.id in old(records) ==>
        r == if old(records)[spec.id].assignment.spec == spec && !old(records)[spec.id].deleting then Existing else Conflict
      ensures ValidSpec(spec) && spec.id !in old(records) ==>
        && (r.BadGateway? <==> answer.None?)
        && (r.Conflict? <==> answer.Some? && old(generation) == TWO_TO_THE_32 - 1)
        && !r.Existing?
      ensures !r.Created? && !r.Pending? ==> records == old(records)
      ensures r.Created? || r.Pending? ==>
        && spec.id !in old(records) && spec.id in records && records[spec.id].assignment.spec == spec
        && answer == Some(records[spec.id].assignment.policy)
        && records[spec.id].assignment.generation == generation == old(generation) + 1
        && records[spec.id].applied == if r.Created? then generation else 0
      ensures r.Created? ==> AtTarget(agent.View(), agent.contexts, agent.connections)
      ensures attempts == old(attempts) + if r.Created? || r.Pending? then 1 else 0
    {
      hide ValidSpec, AtTarget, Inv, AllSynced, FollowsReplay, Bounded;
      answer := None;
      if !ValidSpec(spec) {
        return BadRequest, answer;
      }
      if spec.id in records {
        if records[spec.id].assignment.spec != spec || records[spec.id].deleting {
          return Conflict, answer;
        }
        return Existing, answer;
      }
      var policy := QueryPcf(spec.dnn);
      answer := policy;
      if policy.None? {
        outages := outages + 1;
        return BadGateway, answer;
      }
      ghost var before := generation;
      var g := NextGeneration();
      if g.None? {
        exhausted := exhausted + 1;
        return Conflict, answer;
      }
      var state := SmfContext(Assignment(spec, policy.value, g.value), 0, false, false);
      ChangeKeeps(records, before, agent.contexts, spec.id, state, generation);
      hide ValidPolicy, Coupled;
      records := records[spec.id := state];
      var ok := Attempt(spec.id);
      r := if ok then Created else Pending;
    }

    method Remove(id: string) returns (gone: bool)
      requires Valid()
      modifies this, agent, agent.store
      ensures Valid() && generation == old(generation)
      ensures gone ==> id !in records && id !in agent.contexts
      ensures !gone ==> id in records && records[id].deleting
      ensures attempts == old(attempts) + if id in old(records) then 1 else 0
    {
      hide Coupled, Inv, AllSynced, FollowsReplay, Bounded;
      if id !in records {
        HeldIsRecorded(id);
        return true;
      }
      MarkKeeps(records[id].(deleting := true), id);
      records := records[id := records[id].(deleting := true)];
      gone := Attempt(id);
      if gone { HeldIsRecorded(id); }
    }

    lemma HeldIsRecorded(id: string)
      requires Valid() && id !in records
      ensures id !in agent.contexts
    {
    }

    /** The assignment after the PCF's answer. */
    function Advised(a: Assignment, answer: Option<SteerPolicy>, generation: U32): Assignment {
      if answer.None? || answer.value == a.policy || generation == TWO_TO_THE_32 - 1 then a
      else Assignment(a.spec, answer.value, generation + 1)
    }

    /** When a delivery is due: to a context being deleted; and to another one whose resulting
        generation the agent has not acknowledged, or not recently, unless a new generation is
        needed and there is none left. What the PCF answers, or that it does not, matters only
        for the resulting generation. */
    predicate Due(r: SmfContext, answer: Option<SteerPolicy>, generation: U32, recent: bool) {
      || r.deleting
      || (!NoneLeft(r, answer, generation)
          && (r.applied != Advised(r.assignment, answer, generation).generation || !recent))
    }

    predicate NoneLeft(r: SmfContext, answer: Option<SteerPolicy>, generation: U32) {
      !r.deleting && answer.Some? && answer.value != r.assignment.policy && generation == TWO_TO_THE_32 - 1
    }

    /** One context of a reconcile: follow the PCF's policy, then deliver what is due. `answer`
        is what the PCF says, `recent` what the clock says, `delivered` whether a delivery was
        acknowledged. A context that is not being deleted takes over an answer that differs,
        under the next generation, unless there is none left; it keeps its assignment
        otherwise. */
    method ReconcileOne(id: string)
      returns (ghost answer: Option<SteerPolicy>, ghost recent: bool, ghost delivered: bool)
      requires Valid() && id in records
      modifies this, agent, agent.store
      ensures Valid() && generation >= old(generation)
      ensures records - {id} == old(records) - {id}
      ensures !old(records)[id].deleting ==>
        id in records && records[id].assignment == Advised(old(records)[id].assignment, answer, old(generation))
      // a delivery is attempted exactly when it is due, whatever the PCF answers
      ensures attempts == old(attempts) + if Due(old(records)[id], answer, old(generation), recent) then 1 else 0
      ensures delivered ==> Due(old(records)[id], answer, old(generation), recent) && undelivered == old(undelivered)
      ensures delivered ==> if old(records)[id].deleting then id !in records
                            else id in records && records[id].applied == records[id].assignment.generation
      ensures Due(old(records)[id], answer, old(generation), recent) && !delivered ==>
        undelivered == old(undelivered) + 1 && id in records && records[id].failed
      ensures !Due(old(records)[id], answer, old(generation), recent) ==>
        undelivered == old(undelivered) && id in records && records[id].applied == old(records)[id].applied
      ensures id in records ==> records[id].deleting == old(records)[id].deleting
      ensures outages == old(outages) + if !old(records)[id].deleting && answer.None? then 1 else 0
      ensures exhausted == old(exhausted) + if NoneLeft(old(records)[id], answer, old(generation)) then 1 else 0
    {
      hide Coupled, Canonical, ValidAssignment, ValidPolicy, Inv, AllSynced, FollowsReplay, Bounded, AtTarget;
      answer, recent, delivered := None, false, false;
      if !records[id].deleting {
        var policy := QueryPcf(records[id].assignment.spec.dnn);
        var lately := RecentlyDelivered();
        answer, recent := policy, lately;
        if policy.None? {
          delivered := WithoutPcf(id, lately);
          return;
        }
        if policy.value != records[id].assignment.policy {
          var taken := TakeOver(id, policy.value);
          if !taken {
            return;
          }
        }
        if records[id].applied == records[id].assignment.generation && lately {
          MarkKeeps(records[id].(failed := false), id);
          records := records[id := records[id].(failed := false)];
          return;
        }
      }
      var ok := Attempt(id);
      delivered := ok;
    }

    /** The PCF has no valid answer: what was accepted before is delivered all the same. */
    method WithoutPcf(id: string, lately: bool) returns (ghost delivered: bool)
      requires Valid() && id in records && !records[id].deleting
      modifies this`records, this`outages, this`undelivered, this`attempts, agent, agent.store
      ensures Valid() && outages == old(outages) + 1
      ensures var r := old(records)[id];
        if r.applied == r.assignment.generation && lately then
          && records == old(records)[id := r.(failed := true)] && !delivered
          && attempts == old(attempts) && undelivered == old(undelivered)
        else
          && attempts == old(attempts) + 1 && undelivered == old(undelivered) + (if delivered then 0 else 1)
          && records == old(records)[id := if delivered then r.(applied := r.assignment.generation, failed := false)
                                           else r.(failed := true)]
    {
      hide Coupled, Inv, AllSynced, FollowsReplay, Bounded, AtTarget;
      outages := outages + 1;
      delivered := false;
      MarkKeeps(records[id].(failed := true), id);
      records := records[id := records[id].(failed := true)];
      if records[id].applied != records[id].assignment.generation || !lately {
        var ok := Attempt(id);
        delivered := ok;
      }
    }

    /** Takes over a policy that differs, under the next generation. */
    method TakeOver(id: string, policy: SteerPolicy) returns (taken: bool)
      requires Valid() && id in records && ValidPolicy(policy)
      modifies this`records, this`generation, this`exhausted
      ensures Valid() && (taken <==> old(generation) != TWO_TO_THE_32 - 1)
      ensures exhausted == old(exhausted) + if taken then 0 else 1
      ensures generation == old(generation) + if taken then 1 else 0
      ensures var r := old(records)[id];
        records == old(records)[id := if taken then r.(assignment := Assignment(r.assignment.spec, policy, generation))
                                      else r.(failed := true)]
    {
      hide Coupled, ValidPolicy, Inv, AllSynced, FollowsReplay, Bounded;
      ghost var before := generation;
      var g := NextGeneration();
      if g.None? {
        exhausted := exhausted + 1;
        MarkKeeps(records[id].(failed := true), id);
        records := records[id := records[id].(failed := true)];
        return false;
      }
      var state := records[id].(assignment := Assignment(records[id].assignment.spec, policy, g.value));
      NewGenerationKeeps(id, state, before);
      records := records[id := state];
      taken := true;
    }

    lemma NewGenerationKeeps(id: string, state: SmfContext, before: U32)
      requires Coupled(records, before, agent.contexts) && id in records && before < generation
      requires ValidPolicy(state.assignment.policy) && state.assignment.spec == records[id].assignment.spec
      requires state.assignment.generation == generation
      requires state == records[id].(assignment := state.assignment)
      ensures Coupled(records[id := state], generation, agent.contexts)
    {
      assert RecordOk(id, records[id], before);
      ChangeKeeps(records, before, agent.contexts, id, state, generation);
    }

    /** Reconciles every context, in any order. If every delivery is acknowledged and no
        generation is missing, every context left is one the agent has acknowledged at its
        current generation, during a PCF outage too; if the PCF answers as well, each has the
        policy that it answered with. */
    method Reconcile() returns (ghost answers: map<string, SteerPolicy>)
      requires Valid()
      modifies this, agent, agent.store
      ensures Valid() && generation >= old(generation)
      ensures undelivered == old(undelivered) && exhausted == old(exhausted) ==>
        forall id :: id in records ==> !records[id].deleting && records[id].applied == records[id].assignment.generation
      ensures undelivered == old(undelivered) && exhausted == old(exhausted) && outages == old(outages) ==>
        forall id :: id in records ==> UpToDate(records[id], id, answers)
    {
      answers := map[];
      var todo := records.Keys;
      hide Coupled, Inv, AllSynced, FollowsReplay, Bounded;
      while todo != {}
        invariant Valid() && generation >= old(generation)
        invariant undelivered >= old(undelivered) && exhausted >= old(exhausted) && outages >= old(outages)
        invariant forall id :: id in todo ==> id in records
        invariant undelivered == old(undelivered) && exhausted == old(exhausted) ==> forall id :: id in records && id !in todo ==>
          !records[id].deleting && records[id].applied == records[id].assignment.generation
        invariant undelivered == old(undelivered) && exhausted == old(exhausted) && outages == old(outages) ==>
          forall id :: id in records && id !in todo ==> UpToDate(records[id], id, answers)
        decreases |todo|
      {
        var id :| id in todo;
        ghost var before := records;
        todo := todo - {id};
        ghost var answer, recent, delivered := ReconcileOne(id);
        SameOthers(before, records, id);
        if answer.Some? { answers := answers[id := answer.value]; }
      }
    }

    /** The record follows the PCF's answer, and the agent has acknowledged it. */
    predicate UpToDate(r: SmfContext, id: string, answers: map<string, SteerPolicy>) {
      && !r.deleting && r.applied == r.assignment.generation
      && id in answers && r.assignment.policy == answers[id]
    }

    lemma SameOthers(before: Records, after: Records, id: string)
      requires after - {id} == before - {id}
      ensures forall i :: i != id ==> (i in after <==> i in before) && (i in after ==> after[i] == before[i])
    {
      forall i | i != id
        ensures i in after <==> i in before
        ensures i in after ==> after[i] == before[i]
      {
        assert i in after <==> i in after - {id};
        assert i in before <==> i in before - {id};
        assert i in after ==> after[i] == (after - {id})[i];
        assert i in before ==> before[i] == (before - {id})[i];
      }
    }

    /** Removes every context at shutdown. A deletion of every one is attempted, going on after
        failures; those left, marked for deletion, are as many as were not acknowledged, and
        without one neither side has a context left. */
    method Release() returns (ok: bool)
      requires Valid()
      modifies this, agent, agent.store
      ensures Valid()
      ensures generation == old(generation)
      ensures attempts == old(attempts) + |old(records)|
      ensures |records| == undelivered - old(undelivered) && records.Keys <= old(records).Keys
      ensures forall id :: id in records ==> records[id].deleting
      ensures ok <==> records == map[]
      ensures ok ==> agent.contexts == map[]
    {
      hide Server.Valid, Split, AllDeleting;
      var todo := records.Keys;
      ghost var left: set<string>, failures: nat := {}, 0;
      ok := true;
      StartsSplit(records);
      assert |old(records)| == |old(records).Keys|;
      while todo != {}
        invariant Valid() && generation == old(generation) && records.Keys <= old(records).Keys
        invariant Split(records.Keys, todo, left, failures) && AllDeleting(records, left)
        invariant undelivered == old(undelivered) + failures && (ok <==> failures == 0)
        invariant attempts == old(attempts) + |old(records).Keys| - |todo|
        decreases |todo|
      {
        var id :| id in todo;
        InSplit(records.Keys, todo, left, failures, id);
        var gone;
        gone, left := ReleaseNext(id, todo, left, failures);
        ok := ok && gone;
        todo := todo - {id};
        if !gone { failures := failures + 1; }
      }
      EndsSplit(records, left, failures);
      if ok { NothingHeld(); }
    }

    method ReleaseNext(id: string, ghost todo: set<string>, ghost left: set<string>, ghost failures: nat)
      returns (gone: bool, ghost after: set<string>)
      requires Valid() && Split(records.Keys, todo, left, failures) && AllDeleting(records, left) && id in todo
      requires id in records
      modifies this`records, this`undelivered, this`attempts, agent, agent.store
      ensures Valid() && attempts == old(attempts) + 1 && undelivered == old(undelivered) + if gone then 0 else 1
      ensures records.Keys <= old(records).Keys
      ensures Split(records.Keys, todo - {id}, after, if gone then failures else failures + 1)
      ensures AllDeleting(records, after) && |todo - {id}| == |todo| - 1
    {
      hide Server.Valid, Split, AllDeleting;
      InSplit(records.Keys, todo, left, failures, id);
      OneFewer(records.Keys, todo, left, failures, id);
      gone := ReleaseOne(id);
      StillDeleting(old(records), records, left, id);
      after := if gone then left else left + {id};
    }

    /** The keys to come, and those left behind, one for each delivery not acknowledged. */
    ghost predicate Split<T>(all: set<T>, todo: set<T>, left: set<T>, failures: nat) {
      todo !! left && all == todo + left && |left| == failures
    }

    ghost predicate AllDeleting(rs: Records, ids: set<string>) {
      forall id :: id in ids ==> id in rs && rs[id].deleting
    }

    lemma StartsSplit(rs: Records)
      ensures Split(rs.Keys, rs.Keys, {}, 0) && AllDeleting(rs, {})
    {
    }

    lemma EndsSplit(rs: Records, left: set<string>, failures: nat)
      requires Split(rs.Keys, {}, left, failures) && AllDeleting(rs, left)
      ensures |rs| == failures && rs.Keys == left && forall id :: id in rs ==> rs[id].deleting
    {
      assert |rs| == |rs.Keys|;
    }

    lemma InSplit<T>(all: set<T>, todo: set<T>, left: set<T>, failures: nat, x: T)
      requires Split(all, todo, left, failures) && x in todo
      ensures x in all && x !in left
    {
    }

    lemma OneFewer<T>(all: set<T>, todo: set<T>, left: set<T>, failures: nat, x: T)
      requires Split(all, todo, left, failures) && x in todo
      ensures Split(all - {x}, todo - {x}, left, failures) && Split(all, todo - {x}, left + {x}, failures + 1)
      ensures |todo - {x}| == |todo| - 1
    {
    }

    lemma StillDeleting(before: Records, after: Records, ids: set<string>, id: string)
      requires AllDeleting(before, ids) && id !in ids && before.Keys - {id} <= after.Keys
      requires forall i :: i in after && i != id ==> i in before && after[i] == before[i]
      ensures AllDeleting(after, ids)
      ensures id in after && after[id].deleting ==> AllDeleting(after, ids + {id})
    {
    }

    lemma NothingHeld()
      requires Valid() && records == map[]
      ensures agent.contexts == map[]
    {
      forall id ensures id !in agent.contexts { HeldIsRecorded(id); }
    }

    method ReleaseOne(id: string) returns (gone: bool)
      requires Valid() && id in records
      modifies this`records, this`undelivered, this`attempts, agent, agent.store
      ensures Valid() && attempts == old(attempts) + 1 && undelivered == old(undelivered) + if gone then 0 else 1
      ensures gone ==> records.Keys == old(records).Keys - {id}
      ensures !gone ==> records.Keys == old(records).Keys
      ensures forall i :: i in records && i != id ==> records[i] == old(records)[i]
      ensures !gone ==> records[id].deleting
    {
      hide Coupled, Inv, AllSynced, FollowsReplay, Bounded, AtTarget;
      MarkKeeps(records[id].(deleting := true), id);
      records := records[id := records[id].(deleting := true)];
      gone := Attempt(id);
    }

    /** The agent's own steps: events from the kernel, retries, a fatal subscription error. */
    method AgentStep(op: Operation)
      requires Valid() && (op.OpObserve? || op.OpRetry? || op.OpFail? || op.OpCleanup?)
      modifies agent, agent.store
      ensures Valid()
    {
      hide Coupled, AtTarget, ObservationsKept, OutsideSame, Inv, AllSynced, FollowsReplay, Bounded;
      ghost var held := agent.contexts;
      match op {
        case OpObserve(e) => var r := agent.Observe(e);
        case OpRetry => var ok := agent.Retry();
        case OpFail => agent.Fail();
        case OpCleanup => var ok := agent.Cleanup();
        case _ =>
      }
      DroppingKeeps(records, generation, held, agent.contexts);
    }
  }

  datatype Event = DoCreate(spec: ContextSpec) | DoRemove(id: string) | DoReconcile | DoRelease | DoAgent(op: Operation)

  /** Every run of the two together, with any loss on the wire, any PCF outage and any store
      operation refused, keeps them coupled. */
  method Run(s: Server, events: seq<Event>)
    requires s.Valid()
    requires forall e :: e in events && e.DoAgent? ==> e.op.OpObserve? || e.op.OpRetry? || e.op.OpFail? || e.op.OpCleanup?
    modifies s, s.agent, s.agent.store
    ensures s.Valid() && s.generation >= old(s.generation)
  {
    for i := 0 to |events|
      invariant s.Valid() && s.generation >= old(s.generation)
    {
      match events[i] {
        case DoCreate(spec) => var r, answer := s.Create(spec);
        case DoRemove(id) => var gone := s.Remove(id);
        case DoReconcile => ghost var answers := s.Reconcile();
        case DoRelease => var ok := s.Release();
        case DoAgent(op) =>
          assert events[i] in events;
          s.AgentStep(op);
      }
    }
  }
}
