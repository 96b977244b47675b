/** Runs of the agent: what an operation takes up, how states follow each other, and what a
    whole run makes visible. */
module AgentRuns {
  import opened Words
  import opened Events
  import opened Maps
  import opened ControlPlane
  import opened ConnectionUpdate
  import opened AgentState
  import opened AgentSteps
  import opened Replay
  import opened AgentOperations

  /** Anything that can happen to the agent. */
  datatype Operation =
    OpPut(a: Assignment) | OpDelete(id: string) | OpObserve(e: PMEvent) | OpRetry | OpFail | OpCleanup
    | OpStatus(token: U32)

  /** The agent between two operations, with how many contents its store has shown so far and
      how many operations it has refused. */
  datatype Moment = Moment(state: Agent, fatal: bool, lossy: set<U32>, written: nat, faults: nat)

  /** The operation ends in a reconcile. */
  predicate TakenUp(m: Moment, op: Operation) {
    match op
    case OpPut(a) => !m.fatal && Verdict(m.state.contexts, m.state.ifs, a).None?
    case OpDelete(_) => true
    case OpObserve(e) => !m.fatal && !Ignores(m.state.connections, e) && !Refuses(m.state.connections, e)
    case OpRetry => true
    case _ => false
  }

  predicate Loses(m: Moment, e: PMEvent) {
    !m.fatal && !Ignores(m.state.connections, e) && Refuses(m.state.connections, e)
  }

  /** The state that an operation works from: the request taken in, nothing written yet. */
  function Requested(m: Moment, op: Operation): Agent {
    match op
    case OpPut(a) => if TakenUp(m, op) then WithContext(m.state, Canonical(a)) else m.state
    case OpDelete(id) => Deleting(m.state, id)
    case OpObserve(e) =>
      if TakenUp(m, op) then WithEvent(m.state, e)
      else if Loses(m, e) then m.state.(connections := AfterRefusal(m.state.connections, e))
      else m.state
    case _ => m.state
  }

  function NextLossy(m: Moment, op: Operation): set<U32> {
    if !op.OpObserve? then m.lossy
    else if TakenUp(m, op) then Relearned(m.lossy, op.e)
    else if Loses(m, op.e) then AlsoLost(m.lossy, m.state.connections, op.e)
    else m.lossy
  }

  /** How one moment follows from the one before. */
  ghost predicate Follows(m: Moment, op: Operation, n: Moment) {
    && n.fatal == (m.fatal || op.OpFail?) && n.lossy == NextLossy(m, op)
    && n.written >= m.written && n.faults >= m.faults
    && if TakenUp(m, op) then Reconciled(Requested(m, op), n.state, n.faults == m.faults)
       else if op.OpCleanup? then n.state == m.state.(maps := n.state.maps)
       else n.state == Requested(m, op) && n.written == m.written
  }

  /** Every content that an operation makes visible is accounted for by the state it works
      from. */
  ghost predicate Served(m: Moment, op: Operation, history: seq<Content>) {
    Throughout(Requested(m, op), history, m.written)
  }

  lemma NothingSeen(m: Moment, op: Operation, history: seq<Content>)
    requires m.written == |history|
    ensures Served(m, op, history)
  {
  }

  /** All invariants of the agent. */
  ghost predicate Sound(m: Moment) {
    Inv(m.state) && AllSynced(m.state) && FollowsReplay(m.state, m.lossy) && Bounded(m.state)
  }

  /** A moment of a run whose latest state is `now`: it was sound, its maps are the content
      visible then, and what was accepted by then still is. */
  ghost predicate Passed(m: Moment, now: Agent, history: seq<Content>) {
    && Sound(m)
    && m.state.netns == now.netns && m.state.ifs == now.ifs
    && m.state.journal <= now.journal && m.state.accepted <= now.accepted
    && 0 < m.written <= |history| && history[m.written - 1] == m.state.maps
  }

  /** Every moment has passed, as the latest one sees it. */
  ghost predicate AllPassed(moments: seq<Moment>, now: Agent, history: seq<Content>) {
    forall n :: 0 <= n < |moments| ==> Passed(moments[n], now, history)
  }

  ghost predicate AllFollow(moments: seq<Moment>, ops: seq<Operation>)
    requires |moments| == |ops| + 1
  {
    forall n :: 0 <= n < |ops| ==> Follows(moments[n], ops[n], moments[n + 1])
  }

  /** What each operation made visible is accounted for. */
  ghost predicate AllServed(moments: seq<Moment>, ops: seq<Operation>, history: seq<Content>)
    requires |moments| == |ops| + 1
  {
    forall n, i :: 0 <= n < |ops| && moments[n].written <= i < moments[n + 1].written && i < |history| ==>
      Accounted(Requested(moments[n], ops[n]), history[i])
  }

  /** The moments of a run, one before each operation and one at the end. */
  ghost predicate Chronicle(moments: seq<Moment>, ops: seq<Operation>, history: seq<Content>) {
    && |moments| == |ops| + 1 && moments[|ops|].written == |history|
    && AllPassed(moments, moments[|ops|].state, history)
    && AllFollow(moments, ops) && AllServed(moments, ops, history)
  }

  lemma Begins(m: Moment, history: seq<Content>)
    requires Passed(m, m.state, history) && m.written == |history|
    ensures Chronicle([m], [], history)
  {
    hide Passed;
  }

  /** Nothing accepted is forgotten. */
  lemma FollowsGrows(m: Moment, op: Operation, n: Moment)
    requires Follows(m, op, n)
    ensures m.state.netns == n.state.netns && m.state.ifs == n.state.ifs
    ensures m.state.journal <= n.state.journal && m.state.accepted <= n.state.accepted
  {
    hide Verdict, Ignores, Refuses, AtTarget, ObservationsKept, OutsideSame;
  }

  lemma StillPassed(m: Moment, now: Agent, before: seq<Content>, later: Agent, history: seq<Content>)
    requires Passed(m, now, before) && before <= history
    requires now.netns == later.netns && now.ifs == later.ifs
    requires now.journal <= later.journal && now.accepted <= later.accepted
    ensures Passed(m, later, history)
  {
    hide Sound;
  }

  lemma MorePassed(moments: seq<Moment>, now: Agent, before: seq<Content>, next: Moment, history: seq<Content>)
    requires AllPassed(moments, now, before) && before <= history && Passed(next, next.state, history)
    requires now.netns == next.state.netns && now.ifs == next.state.ifs
    requires now.journal <= next.state.journal && now.accepted <= next.state.accepted
    ensures AllPassed(moments + [next], next.state, history)
  {
    hide Passed;
    forall n | 0 <= n < |moments|
      ensures Passed(moments[n], next.state, history)
    {
      StillPassed(moments[n], now, before, next.state, history);
    }
  }

  lemma MoreFollow(moments: seq<Moment>, ops: seq<Operation>, op: Operation, next: Moment)
    requires |moments| == |ops| + 1 && AllFollow(moments, ops) && Follows(moments[|ops|], op, next)
    ensures AllFollow(moments + [next], ops + [op])
  {
    hide Follows;
  }

  lemma MoreServed(moments: seq<Moment>, ops: seq<Operation>, before: seq<Content>,
                   op: Operation, next: Moment, history: seq<Content>)
    requires |moments| == |ops| + 1 && AllServed(moments, ops, before) && before <= history
    requires forall n :: 0 <= n < |moments| ==> moments[n].written <= |before|
    requires Served(moments[|ops|], op, history)
    ensures AllServed(moments + [next], ops + [op], history)
  {
    hide Accounted, Requested;
  }

  lemma PassedInTime(moments: seq<Moment>, now: Agent, history: seq<Content>)
    requires AllPassed(moments, now, history)
    ensures forall n :: 0 <= n < |moments| ==> moments[n].written <= |history|
  {
    hide Sound;
  }

  lemma Continues(moments: seq<Moment>, ops: seq<Operation>, before: seq<Content>,
                  op: Operation, next: Moment, history: seq<Content>)
    requires Chronicle(moments, ops, before) && before <= history && next.written == |history|
    requires Follows(moments[|ops|], op, next) && Served(moments[|ops|], op, history)
    requires Passed(next, next.state, history)
    ensures Chronicle(moments + [next], ops + [op], history)
  {
    hide Follows, Served, Passed, AllPassed, AllFollow, AllServed;
    FollowsGrows(moments[|ops|], op, next);
    PassedInTime(moments, moments[|ops|].state, before);
    MorePassed(moments, moments[|ops|].state, before, next, history);
    MoreFollow(moments, ops, op, next);
    MoreServed(moments, ops, before, op, next, history);
  }

  lemma RequestedIsSound(m: Moment, op: Operation)
    requires Sound(m)
    ensures Inv(Requested(m, op)) && Requested(m, op).netns == m.state.netns
  {
    hide Inv, AllSynced, FollowsReplay, Bounded, Verdict, Ignores, Refuses;
    match op
    case OpPut(a) => if TakenUp(m, op) { PutKeepsInv(m.state, a); }
    case OpDelete(id) => DeleteKeepsInv(m.state, id);
    case OpObserve(e) =>
      if TakenUp(m, op) {
        ObserveKeepsInv(m.state, e);
      } else if Loses(m, e) {
        RefusalKeeps(m.state, e, m.lossy);
      }
    case _ =>
  }

  /** The operation during which a content became visible. */
  lemma {:induction false} SightedIn(moments: seq<Moment>, i: nat, last: nat) returns (n: nat)
    requires last < |moments| && moments[0].written <= i < moments[last].written
    ensures n < last && moments[n].written <= i < moments[n + 1].written
    decreases last
  {
    assert last > 0;
    if i < moments[last - 1].written {
      n := SightedIn(moments, i, last - 1);
    } else {
      n := last - 1;
    }
  }

  /** Each content that became visible during a run did so during one of its operations, and
      is accounted for by the state, itself satisfying the invariant, that the operation
      worked from. */
  lemma EverySight(moments: seq<Moment>, ops: seq<Operation>, history: seq<Content>, i: nat) returns (n: nat)
    requires Chronicle(moments, ops, history) && moments[0].written <= i < |history|
    ensures n < |ops| && moments[n].written <= i < moments[n + 1].written
    ensures Inv(Requested(moments[n], ops[n])) && Accounted(Requested(moments[n], ops[n]), history[i])
    ensures Requested(moments[n], ops[n]).netns == moments[|ops|].state.netns
  {
    hide AllFollow, Passed, Accounted, Requested, Inv;
    n := SightedIn(moments, i, |ops|);
    assert Passed(moments[n], moments[|ops|].state, history);
    PassedIsSound(moments[n], moments[|ops|].state, history);
    RequestedIsSound(moments[n], ops[n]);
  }

  lemma PassedIsSound(m: Moment, now: Agent, history: seq<Content>)
    requires Passed(m, now, history)
    ensures Sound(m) && m.state.netns == now.netns
  {
    hide Sound;
  }

  /** Provenance over whole runs: a path entry of the namespace that was ever in the maps has
      IDs that an opening accepted by then reported with the address of its leg, in the
      context that its connection matched when the entry could be seen. */
  lemma EveryPathEver(moments: seq<Moment>, ops: seq<Operation>, history: seq<Content>, i: nat, k: PathKey)
    returns (n: nat)
    requires Chronicle(moments, ops, history) && moments[0].written <= i < |history|
    requires k in history[i].paths && k.conn.netns == moments[|ops|].state.netns
    ensures n < |ops| && moments[n].written <= i < moments[n + 1].written
    ensures var v := Requested(moments[n], ops[n]);
      && MatchingContext(v, k.conn.token)
      && forall id :: MatchedBy(v, k.conn.token, id) ==>
           Observed(v.journal, v.contexts[id].assignment, k, history[i].paths[k].access)
  {
    hide AllPassed, AllFollow, AllServed, Inv, Accounted, Requested, MatchedBy, Observed;
    n := EverySight(moments, ops, history, i);
    EveryPathWasObserved(Requested(moments[n], ops[n]), history[i], k);
  }

  /** The same for policies: one that was ever in the maps was derived from an assignment,
      accepted by then, of the context that its connection matched, and was not ahead of it. */
  lemma EveryPolicyEver(moments: seq<Moment>, ops: seq<Operation>, history: seq<Content>, i: nat, key: ConnKey)
    returns (n: nat)
    requires Chronicle(moments, ops, history) && moments[0].written <= i < |history|
    requires key in history[i].policies && key.netns == moments[|ops|].state.netns
    ensures n < |ops| && moments[n].written <= i < moments[n + 1].written
    ensures var v := Requested(moments[n], ops[n]);
      && MatchingContext(v, key.token)
      && forall id :: MatchedBy(v, key.token, id) ==>
           && NotAhead(Some(history[i].policies[key]), v.contexts[id].assignment)
           && Issued(v.accepted, v.contexts[id].assignment, Some(history[i].policies[key]))
  {
    hide AllPassed, AllFollow, AllServed, Inv, Accounted, Requested, MatchedBy, NotAhead, Issued;
    n := EverySight(moments, ops, history, i);
    EveryPolicyWasIssued(Requested(moments[n], ops[n]), history[i], key);
  }
}
