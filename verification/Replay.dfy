/** What a sequence of accepted events says about one connection. */
module Replay {
  import opened Words
  import opened Events
  import opened AgentState
  import opened AgentSteps

  datatype Record = Record(initial: Option<PMEvent>, flows: map<ObservedFlow, PMEvent>)

  /** One event of the connection: a close forgets it, an establishment opens it. */
  function Next(r: Option<Record>, e: PMEvent): Option<Record> {
    if e.kind == CLOSED then None
    else if e.kind == SUB_CLOSED then
      if r.None? then None else Some(r.value.(flows := r.value.flows - {EventFlow(e)}))
    else
      var last := if r.None? then Record(None, map[]) else r.value;
      Some(Record(if e.kind == ESTABLISHED then Some(e) else last.initial, last.flows[EventFlow(e) := e]))
  }

  function Replayed(journal: seq<PMEvent>, token: U32): Option<Record>
    decreases |journal|
  {
    if journal == [] then None
    else
      var r := Replayed(journal[..|journal|-1], token);
      var e := journal[|journal|-1];
      if e.token == token then Next(r, e) else r
  }

  /** The open connections are those of the replay, with its subflows and, unless a refused
      establishment has replaced it, its initial tuple; `lossy` names the connections where
      one has. */
  ghost predicate FollowsReplay(v: Agent, lossy: set<U32>) {
    forall token: U32 :: TokenFollows(v, token, token in lossy)
  }

  ghost predicate TokenFollows(v: Agent, token: U32, lossy: bool) {
    var r := Replayed(v.journal, token);
    if token in v.connections && !v.connections[token].closed then
      && r.Some? && v.connections[token].flows == r.value.flows
      && (!lossy ==> v.connections[token].initial == r.value.initial)
    else r.None?
  }

  /** Reconciling does not touch the observations. */
  lemma ReconcileFollows(v: Agent, w: Agent, lossy: set<U32>)
    requires FollowsReplay(v, lossy) && v.journal == w.journal && ObservationsKept(v.connections, w.connections)
    ensures FollowsReplay(w, lossy)
  {
    forall token: U32
      ensures TokenFollows(w, token, token in lossy)
    {
      assert TokenFollows(v, token, token in lossy);
      if token in w.connections {
        assert SameObservation(v.connections[token], w.connections[token]);
      }
    }
  }

  lemma ReplayedStep(journal: seq<PMEvent>, e: PMEvent, token: U32)
    ensures Replayed(journal + [e], token) ==
      if e.token == token then Next(Replayed(journal, token), e) else Replayed(journal, token)
  {
    assert (journal + [e])[..|journal + [e]| - 1] == journal;
  }
}
