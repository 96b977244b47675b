/** What the SMF and the agent know of each other's contexts. */
module Delivery {
  import opened Words
  import opened ControlPlane
  import opened AgentState
  import opened AgentOperations

  /** An SMF context; `applied` is the last generation the agent acknowledged, 0 for none. */
  datatype SmfContext = SmfContext(assignment: Assignment, applied: U32, deleting: bool, failed: bool)

  type Records = map<string, SmfContext>

  predicate RecordOk(id: string, r: SmfContext, generation: U32) {
    && ValidAssignment(r.assignment) && r.assignment.spec.id == id
    && r.applied <= r.assignment.generation <= generation
  }

  /** The agent's context stems from the SMF's: same specification, not newer, the same
      assignment if the generations agree, and being deleted only if the SMF deletes it. */
  predicate Echoes(r: SmfContext, ctx: Context) {
    && ctx.assignment.spec == CanonicalSpec(r.assignment.spec)
    && ctx.assignment.generation <= r.assignment.generation
    && (ctx.assignment.generation == r.assignment.generation ==> ctx.assignment == Canonical(r.assignment))
    && (ctx.deleting ==> r.deleting)
  }

  /** An acknowledged generation is one the agent still holds or has passed. */
  predicate Acknowledged(id: string, r: SmfContext, held: Contexts) {
    !r.deleting && r.applied != 0 ==> id in held && r.applied <= held[id].assignment.generation
  }

  predicate Coupled(records: Records, generation: U32, held: Contexts) {
    && (forall id :: id in records ==> RecordOk(id, records[id], generation) && Acknowledged(id, records[id], held))
    && (forall id :: id in held ==> id in records && Echoes(records[id], held[id]))
  }

  /** While a context is not being deleted: applied <= held by the agent <= SMF, and equal
      generations mean equal assignments. */
  lemma GenerationsOrdered(records: Records, generation: U32, held: Contexts, id: string)
    requires Coupled(records, generation, held) && id in records && !records[id].deleting
    ensures records[id].applied != 0 ==> id in held
    ensures id in held ==>
      && records[id].applied <= held[id].assignment.generation <= records[id].assignment.generation
      && held[id].assignment.spec == CanonicalSpec(records[id].assignment.spec) && !held[id].deleting
      && (held[id].assignment.generation == records[id].assignment.generation ==>
            held[id].assignment == Canonical(records[id].assignment))
  {
    assert Acknowledged(id, records[id], held);
    if id in held { assert Echoes(records[id], held[id]); }
    hide Canonical, CanonicalSpec, ValidAssignment;
  }

  /** The agent never refuses an SMF assignment as invalid, stale or conflicting, changed, or
      pending deletion. */
  lemma NeverRefusedAsOutdated(records: Records, generation: U32, held: Contexts, ifs: Interfaces, id: string)
    requires Coupled(records, generation, held) && id in records && !records[id].deleting
    ensures match Verdict(held, ifs, records[id].assignment)
      case None => true
      case Some(why) => why.AddressUnknown? || why.CapacityReached? || why.FlowTaken?
  {
    assert RecordOk(id, records[id], generation);
    if id in held {
      assert Echoes(records[id], held[id]);
      HeldVerdict(held, ifs, records[id].assignment);
    } else {
      NewVerdict(held, ifs, records[id].assignment);
    }
    hide Verdict, ValidAssignment, Canonical, CanonicalSpec;
  }

  lemma HeldVerdict(held: Contexts, ifs: Interfaces, raw: Assignment)
    requires ValidAssignment(raw) && raw.spec.id in held
    requires var ctx := held[raw.spec.id];
      && !ctx.deleting && ctx.assignment.spec == CanonicalSpec(raw.spec)
      && ctx.assignment.generation <= raw.generation
      && (ctx.assignment.generation == raw.generation ==> ctx.assignment == Canonical(raw))
    ensures Verdict(held, ifs, raw).Some? ==> Verdict(held, ifs, raw).value.AddressUnknown?
  {
    assert Canonical(raw).spec.id == raw.spec.id && Canonical(raw).generation == raw.generation;
    assert Canonical(raw).spec == CanonicalSpec(raw.spec);
    hide ValidAssignment, Canonical, CanonicalSpec;
  }

  lemma NewVerdict(held: Contexts, ifs: Interfaces, raw: Assignment)
    requires ValidAssignment(raw) && raw.spec.id !in held
    ensures match Verdict(held, ifs, raw)
      case None => true
      case Some(why) => why.AddressUnknown? || why.CapacityReached? || why.FlowTaken?
  {
    assert Canonical(raw).spec.id == raw.spec.id;
    hide ValidAssignment, Canonical, CanonicalSpec;
  }

  /** The agent may forget contexts it was deleting. */
  lemma DroppingKeeps(records: Records, generation: U32, held: Contexts, after: Contexts)
    requires Coupled(records, generation, held)
    requires forall id :: id in after ==> id in held && after[id] == held[id]
    requires forall id :: id in held && id !in after ==> held[id].deleting
    ensures Coupled(records, generation, after)
  {
    hide Canonical, CanonicalSpec, ValidAssignment, RecordOk;
    forall id | id in records
      ensures Acknowledged(id, records[id], after)
    {
      assert Acknowledged(id, records[id], held);
      if id in held { assert Echoes(records[id], held[id]); }
    }
  }

  lemma PutKeeps(records: Records, generation: U32, held: Contexts, id: string)
    requires Coupled(records, generation, held) && id in records && !records[id].deleting
    ensures Coupled(records, generation, held[id := Context(Canonical(records[id].assignment), false)])
  {
    hide ValidAssignment;
    var after := held[id := Context(Canonical(records[id].assignment), false)];
    forall i | i in records
      ensures RecordOk(i, records[i], generation) && Acknowledged(i, records[i], after)
    {
      assert RecordOk(i, records[i], generation) && Acknowledged(i, records[i], held);
    }
  }

  lemma AcknowledgePut(records: Records, generation: U32, held: Contexts, id: string)
    requires Coupled(records, generation, held) && id in records && id in held
    requires held[id].assignment == Canonical(records[id].assignment)
    ensures Coupled(records[id := records[id].(applied := records[id].assignment.generation, failed := false)], generation, held)
  {
    hide ValidAssignment;
    assert RecordOk(id, records[id], generation);
  }

  lemma DeleteKeeps(records: Records, generation: U32, held: Contexts, id: string)
    requires Coupled(records, generation, held) && id in records && records[id].deleting
    ensures id in held ==> Coupled(records, generation, held[id := held[id].(deleting := true)])
  {
    hide ValidAssignment, Canonical, CanonicalSpec;
    if id in held {
      var after := held[id := held[id].(deleting := true)];
      forall i | i in records
        ensures RecordOk(i, records[i], generation) && Acknowledged(i, records[i], after)
      {
        assert RecordOk(i, records[i], generation) && Acknowledged(i, records[i], held);
      }
    }
  }

  lemma AcknowledgeDelete(records: Records, generation: U32, held: Contexts, id: string)
    requires Coupled(records, generation, held) && id !in held
    ensures Coupled(records - {id}, generation, held)
  {
    hide ValidAssignment, Canonical, CanonicalSpec, Echoes, RecordOk, Acknowledged;
  }

  /** A record may be marked, and take a new policy under a generation not used before. */
  lemma ChangeKeeps(records: Records, generation: U32, held: Contexts, id: string, r: SmfContext, generation': U32)
    requires Coupled(records, generation, held) && generation <= generation'
    requires RecordOk(id, r, generation')
    requires if id in records then
        var last := records[id];
        && (last.deleting ==> r.deleting) && r.applied == last.applied
        && (r.assignment == last.assignment
            || (r.assignment.spec == last.assignment.spec && r.assignment.generation > generation))
      else r.applied == 0
    ensures Coupled(records[id := r], generation', held)
  {
    hide ValidAssignment, Canonical, CanonicalSpec;
    var after := records[id := r];
    forall i | i in after
      ensures RecordOk(i, after[i], generation') && Acknowledged(i, after[i], held)
    {
      if i != id { assert RecordOk(i, records[i], generation); }
      if i in records { assert Acknowledged(i, records[i], held); }
    }
    forall i | i in held
      ensures i in after && Echoes(after[i], held[i])
    {
      assert i in records && Echoes(records[i], held[i]) && RecordOk(i, records[i], generation);
    }
  }
}
