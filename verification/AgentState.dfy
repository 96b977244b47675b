/** The agent's state as a value: contexts, observed connections and the maps, the invariant
    of all reachable states, and the declarative target of a reconcile. */
module AgentState {
  import opened Words
  import opened Events
  import opened Maps
  import opened ControlPlane
  import opened Planning
  import opened ConnectionUpdate

  /** An observed connection; owner "" means no context owns it. */
  datatype Connection = Connection(
    initial: Option<PMEvent>, flows: map<ObservedFlow, PMEvent>, owner: string, closed: bool, failed: bool)

  datatype Context = Context(assignment: Assignment, deleting: bool)

  type Contexts = map<string, Context>
  type Connections = map<U32, Connection>

  /** `journal` is the sequence of events accepted so far, `accepted` the assignments. */
  datatype Agent = Agent(
    contexts: Contexts, connections: Connections, maps: Content,
    netns: U64, ifs: Interfaces, journal: seq<PMEvent>, accepted: set<Assignment>)

  function KeyOf(v: Agent, token: U32): ConnKey {
    ConnKey(v.netns, token, 0)
  }

  function SlotAt(v: Agent, token: U32): Slot {
    SlotOf(v.maps, KeyOf(v, token))
  }

  /** The initial connection tuple selects the context. */
  predicate Matches(a: Assignment, e: PMEvent) {
    && e.destinationAddress == a.spec.flow.destinationAddress && e.destinationPort == a.spec.flow.destinationPort
    && (e.localAddress == a.spec.legA.localAddress || e.localAddress == a.spec.legB.localAddress)
  }

  /** Contexts are filed under their own id, admitted, and have pairwise distinct flows. */
  predicate ContextsOk(contexts: Contexts, ifs: Interfaces) {
    && (forall id :: id in contexts ==>
          contexts[id].assignment.spec.id == id && Admitted(contexts[id].assignment, ifs))
    && (forall i, j :: i in contexts && j in contexts && i != j ==>
          contexts[i].assignment.spec.flow != contexts[j].assignment.spec.flow)
  }

  predicate EndsClosed(events: seq<PMEvent>) {
    events != [] && events[|events|-1].kind == CLOSED
  }

  /** The accepted events of the latest connection under this token, its close included. */
  function Lifetime(journal: seq<PMEvent>, token: U32): seq<PMEvent>
    decreases |journal|
  {
    if journal == [] then []
    else
      var before, e := Lifetime(journal[..|journal|-1], token), journal[|journal|-1];
      if e.token != token then before
      else if !EndsClosed(before) then before + [e]
      else if e.kind == CLOSED then before
      else [e]
  }

  /** The event opens a subflow. */
  predicate Opening(e: PMEvent) {
    e.kind == ESTABLISHED || e.kind == SUB_ESTABLISHED
  }

  /** An accepted opening of the connection reported these IDs with that leg's address. */
  ghost predicate Observed(journal: seq<PMEvent>, a: Assignment, k: PathKey, access: U32) {
    exists e :: e in Lifetime(journal, k.conn.token) && Opening(e)
                && e.localId == k.localId && e.remoteId == k.remoteId && LegOf(a, e.localAddress) == Some(access)
  }

  ghost predicate Provenance(journal: seq<PMEvent>, a: Assignment, paths: Paths) {
    forall k :: k in paths ==> Observed(journal, a, k, paths[k].access)
  }

  predicate FlowsSeen(journal: seq<PMEvent>, token: U32, flows: map<ObservedFlow, PMEvent>) {
    forall e :: e in flows.Values ==> e in Lifetime(journal, token) && Opening(e)
  }

  predicate Owned(v: Agent, token: U32) {
    token in v.connections && v.connections[token].owner != ""
  }

  /** A live policy was derived from an accepted assignment of the same specification. */
  ghost predicate Issued(accepted: set<Assignment>, a: Assignment, policy: Option<MapPolicy>) {
    policy.Some? ==> exists b :: b in accepted && b.spec == a.spec && policy.value == Derived(b)
  }

  /** What the maps may hold for a connection on behalf of an assignment: a policy that is not
      ahead of it and was once issued, and paths that were observed; nothing if a name is
      refused. */
  ghost predicate Justified(v: Agent, a: Assignment, slot: Slot) {
    && NotAhead(slot.policy, a) && Issued(v.accepted, a, slot.policy)
    && Provenance(v.journal, a, slot.paths) && (!NamesTrimmed(a) ==> slot == EMPTY_SLOT)
  }

  /** What holds of one token in every reachable state. Owned: the owner is an existing
      context that the initial tuple matches, and what the maps hold is justified by its
      assignment. Not owned, or not tracked: the maps hold nothing for it. */
  ghost predicate TokenOk(v: Agent, token: U32) {
    && (token in v.connections ==>
          && FlowsSeen(v.journal, token, v.connections[token].flows)
          && (v.connections[token].closed || !EndsClosed(Lifetime(v.journal, token))))
    && if Owned(v, token) then
         var c := v.connections[token];
         && c.owner in v.contexts && c.initial.Some?
         && Matches(v.contexts[c.owner].assignment, c.initial.value)
         && Justified(v, v.contexts[c.owner].assignment, SlotAt(v, token))
       else SlotAt(v, token) == EMPTY_SLOT
  }

  ghost predicate Inv(v: Agent) {
    && v.netns != 0 && ContextsOk(v.contexts, v.ifs)
    && (forall id :: id in v.contexts ==> v.contexts[id].assignment in v.accepted)
    && (forall token: U32 :: TokenOk(v, token))
    && (forall key: ConnKey :: key.netns == v.netns && key.reserved != 0 ==> SlotOf(v.maps, key) == EMPTY_SLOT)
  }

  predicate OwnedByDeleting(v: Agent, token: U32) {
    Owned(v, token) && v.connections[token].owner in v.contexts && v.contexts[v.connections[token].owner].deleting
  }

  /** A connection without a recorded error whose policy is live is exactly at its target. */
  ghost predicate Synced(v: Agent, token: U32) {
    Owned(v, token) && !v.connections[token].failed && !v.connections[token].closed && !OwnedByDeleting(v, token)
    && SlotAt(v, token).policy.Some? ==>
      var c := v.connections[token];
      && c.owner in v.contexts && Admitted(v.contexts[c.owner].assignment, v.ifs)
      && SlotAt(v, token) == SlotTarget(c.flows.Values, v.contexts[c.owner].assignment, v.ifs, KeyOf(v, token))
  }

  ghost predicate AllSynced(v: Agent) {
    forall token: U32 :: Synced(v, token)
  }

  /** The context claims the connection. */
  predicate Claims(ctx: Context, c: Connection) {
    !ctx.deleting && !c.closed && c.initial.Some? && Matches(ctx.assignment, c.initial.value)
  }

  /** The declarative target of one connection: what the claiming context asks for, nothing
      if no context claims it. Owners, errors and history play no part. */
  ghost predicate IsTarget(slot: Slot, contexts: Contexts, c: Connection, ifs: Interfaces, key: ConnKey) {
    && (forall id :: id in contexts && Claims(contexts[id], c) ==>
          && Admitted(contexts[id].assignment, ifs)
          && slot == SlotTarget(c.flows.Values, contexts[id].assignment, ifs, key))
    && ((forall id :: id in contexts ==> !Claims(contexts[id], c)) ==> slot == EMPTY_SLOT)
  }

  /** No context that claims the connection has anything to complain of. */
  ghost predicate Serviceable(contexts: Contexts, c: Connection, ifs: Interfaces) {
    forall id :: id in contexts && Claims(contexts[id], c) ==>
      Admitted(contexts[id].assignment, ifs) && Plannable(c.flows.Values, contexts[id].assignment, ifs)
  }

  /** The namespace's part of the maps is the target of these contexts and connections. */
  ghost predicate AtTarget(v: Agent, contexts: Contexts, connections: Connections) {
    && (forall token: U32 ::
          if token in connections
          then IsTarget(SlotAt(v, token), contexts, connections[token], v.ifs, KeyOf(v, token))
          else SlotAt(v, token) == EMPTY_SLOT)
    && (forall key: ConnKey :: key.netns == v.netns && key.reserved != 0 ==> SlotOf(v.maps, key) == EMPTY_SLOT)
  }

  /** Nothing outside the namespace changed. */
  ghost predicate OutsideSame(m: Content, n: Content, netns: U64) {
    forall key: ConnKey :: key.netns != netns ==> SlotOf(m, key) == SlotOf(n, key)
  }

  /** What holds of a content that a reader may see while the agent is in state `v`, in the
      middle of an operation or not: each connection of the namespace with an entry is a
      tracked one, and the context that its initial tuple matches justifies everything the
      maps hold for it. */
  ghost predicate Accounted(v: Agent, m: Content) {
    forall key: ConnKey :: key.netns == v.netns ==> KeyAccounted(v, m, key)
  }

  ghost predicate KeyAccounted(v: Agent, m: Content, key: ConnKey) {
    SlotOf(m, key) != EMPTY_SLOT ==>
      && key.reserved == 0 && key.token in v.connections
      && exists id :: Justifies(v, key.token, id, SlotOf(m, key))
  }

  ghost predicate Justifies(v: Agent, token: U32, id: string, slot: Slot)
    requires token in v.connections
  {
    && id in v.contexts && v.connections[token].initial.Some?
    && Matches(v.contexts[id].assignment, v.connections[token].initial.value)
    && Justified(v, v.contexts[id].assignment, slot)
  }

  /** Every content from index `from` on is accounted for. */
  ghost predicate Throughout(v: Agent, history: seq<Content>, from: nat) {
    forall i :: from <= i < |history| ==> Accounted(v, history[i])
  }

  // ---- consequences of the invariant ----

  /** No leaks: an entry of the namespace belongs to a tracked connection owned by an
      existing context. */
  lemma NoLeaks(v: Agent, key: ConnKey)
    requires Inv(v) && key.netns == v.netns && SlotOf(v.maps, key) != EMPTY_SLOT
    ensures key.reserved == 0 && Owned(v, key.token) && v.connections[key.token].owner in v.contexts
  {
    if key.reserved == 0 {
      assert key == KeyOf(v, key.token);
      assert TokenOk(v, key.token);
    }
  }

  /** Provenance: whatever context of that moment the connection matches, a path entry that
      can be seen has IDs that an accepted opening of its connection reported with the
      address, in that context, of the leg it is classified to; and there is such a context. */
  lemma EveryPathWasObserved(v: Agent, m: Content, k: PathKey)
    requires Inv(v) && Accounted(v, m) && k in m.paths && k.conn.netns == v.netns
    ensures MatchingContext(v, k.conn.token)
    ensures forall id :: MatchedBy(v, k.conn.token, id) ==>
      Observed(v.journal, v.contexts[id].assignment, k, m.paths[k].access)
  {
    assert k in SlotOf(m, k.conn).paths;
    assert KeyAccounted(v, m, k.conn);
    var id :| Justifies(v, k.conn.token, id, SlotOf(m, k.conn));
    assert Observed(v.journal, v.contexts[id].assignment, k, SlotOf(m, k.conn).paths[k].access);
    OnlyMatch(v, k.conn.token, id);
  }

  /** A policy that can be seen at any moment was derived from an assignment accepted for the
      context that the connection matches. */
  lemma EveryPolicyWasIssued(v: Agent, m: Content, key: ConnKey)
    requires Inv(v) && Accounted(v, m) && key in m.policies && key.netns == v.netns
    ensures MatchingContext(v, key.token)
    ensures forall id :: MatchedBy(v, key.token, id) ==>
      && NotAhead(Some(m.policies[key]), v.contexts[id].assignment)
      && Issued(v.accepted, v.contexts[id].assignment, Some(m.policies[key]))
  {
    assert SlotOf(m, key).policy == Some(m.policies[key]);
    assert KeyAccounted(v, m, key);
    var id :| Justifies(v, key.token, id, SlotOf(m, key));
    OnlyMatch(v, key.token, id);
  }

  /** The context's flow and legs fit the initial tuple of the connection. */
  predicate MatchedBy(v: Agent, token: U32, id: string) {
    && token in v.connections && v.connections[token].initial.Some? && id in v.contexts
    && Matches(v.contexts[id].assignment, v.connections[token].initial.value)
  }

  ghost predicate MatchingContext(v: Agent, token: U32) {
    exists id :: MatchedBy(v, token, id)
  }

  lemma OnlyMatch(v: Agent, token: U32, id: string)
    requires Inv(v) && MatchedBy(v, token, id)
    ensures MatchingContext(v, token)
    ensures forall other :: MatchedBy(v, token, other) ==> other == id
  {
    hide TokenOk, SlotOf;
    forall other | MatchedBy(v, token, other)
      ensures other == id
    {
      UniqueMatch(v.contexts, v.ifs, v.connections[token].initial.value, other, id);
    }
  }

  /** The content between operations is accounted for, by the owners. */
  lemma StateIsAccounted(v: Agent)
    requires Inv(v)
    ensures Accounted(v, v.maps)
  {
    hide SlotOf, Justified, ContextsOk, Matches;
    forall key: ConnKey | key.netns == v.netns
      ensures KeyAccounted(v, v.maps, key)
    {
      if SlotOf(v.maps, key) != EMPTY_SLOT {
        NoLeaks(v, key);
        assert key == KeyOf(v, key.token) && TokenOk(v, key.token);
        assert Justifies(v, key.token, v.connections[key.token].owner, SlotOf(v.maps, key));
      }
    }
  }

  /** The live policy of a connection is never ahead of its owner's assignment: an apply at
      the owner's generation is never refused as stale. */
  lemma NeverStale(v: Agent, token: U32)
    requires Inv(v) && Owned(v, token)
    ensures v.connections[token].owner in v.contexts
    ensures var a := v.contexts[v.connections[token].owner].assignment;
      var live := SlotAt(v, token).policy;
      live != Some(Derived(a)) && live.Some? ==> live.value.generation < a.generation
  {
    assert TokenOk(v, token);
  }

  /** At most one context matches a connection. */
  lemma UniqueMatch(contexts: Contexts, ifs: Interfaces, e: PMEvent, i: string, j: string)
    requires ContextsOk(contexts, ifs) && i in contexts && j in contexts
    requires Matches(contexts[i].assignment, e) && Matches(contexts[j].assignment, e)
    ensures i == j
  {
    assert contexts[i].assignment.spec.flow == contexts[j].assignment.spec.flow;
  }
}
