/** Flapping over runs of whole scheduler calls in lowest-RTT mode. */
module Stability {
  import opened Words
  import opened Maps
  import opened Selection
  import opened Scheduler
  import opened Shares
  import opened Hysteresis

  /** The sample holds the lowest RTTs, leg by leg, of the pool that the call chooses from. */
  ghost predicate BestRtts(p: Policy, c: Call, t: Sample)
    requires c.Valid()
  {
    LowestOn(p, c, 0, t.positionA, t.a) && LowestOn(p, c, 1, t.positionB, t.b)
  }

  ghost predicate LowestOn(p: Policy, c: Call, leg: U32, position: int, rttUs: U32)
    requires c.Valid()
  {
    var backup := !PreferredActive(c, c.Scanned());
    && 0 <= position && InPool(p, c, position, backup, leg) && rttUs == Rtt(c.subflows[position])
    && forall j: nat :: InPool(p, c, j, backup, leg) ==> rttUs <= Rtt(c.subflows[j])
  }

  /** No leg has a measured subflow in the pool that the call chooses from. */
  ghost predicate Starved(p: Policy, c: Call)
    requires c.Valid()
  {
    var backup := !PreferredActive(c, c.Scanned());
    forall j: nat, leg: U32 :: leg < 2 ==> !InPool(p, c, j, backup, leg)
  }

  /** Calls in one generation, some of them left to the default scheduler, some of them in an
      outage of both legs. */
  ghost predicate Outaged(p: Policy, turns: seq<Turn>) {
    forall t :: t in turns ==> OutagedTurn(p, t)
  }

  ghost predicate OutagedTurn(p: Policy, t: Turn) {
    && t.c.Valid()
    && (t.policy.Some? ==> t.policy.value == p)
    && (t.Decides() ==> Supplied(p, t.c) || Starved(p, t.c))
  }

  /** The call schedules a subflow. */
  ghost predicate Moves(p: Policy, t: Turn) {
    t.Decides() && t.c.Valid() && Supplied(p, t.c)
  }

  ghost predicate RttTurnTaken(p: Policy, t: Turn, choice: Option<nat>) {
    t.c.Valid() && if Moves(p, t) then choice.Some? && Choosable(p, t.c, choice.value) else choice.None?
  }

  /** One sample of best RTTs for each call that schedules. */
  ghost predicate Sampled(p: Policy, turns: seq<Turn>, ts: Trace) {
    if turns == [] then ts == []
    else
      var t, before := turns[|turns|-1], turns[..|turns|-1];
      if Moves(p, t) then ts != [] && BestRtts(p, t.c, ts[|ts|-1]) && Sampled(p, before, ts[..|ts|-1])
      else Sampled(p, before, ts)
  }

  lemma OneMoreSample(p: Policy, turns: seq<Turn>, ts: Trace, t: Turn, x: Sample)
    requires Sampled(p, turns, ts) && t.c.Valid() && (Moves(p, t) ==> BestRtts(p, t.c, x))
    ensures Sampled(p, turns + [t], if Moves(p, t) then ts + [x] else ts)
  {
    var all := turns + [t];
    assert all[..|all|-1] == turns && all[|all|-1] == t;
    assert (ts + [x])[..|ts|] == ts;
    hide BestRtts, Moves;
  }

  /** The legs of the subflows scheduled, one after the other. */
  function Legs(turns: seq<Turn>, chosen: seq<Option<nat>>): seq<int>
    requires |turns| == |chosen|
  {
    if turns == [] then []
    else
      var t, choice := turns[|turns|-1], chosen[|chosen|-1];
      Legs(turns[..|turns|-1], chosen[..|chosen|-1])
      + if choice.Some? && choice.value < |t.c.lookups| && t.c.lookups[choice.value].Some?
        then [t.c.lookups[choice.value].value.access] else []
  }

  lemma OneMoreLeg(turns: seq<Turn>, chosen: seq<Option<nat>>, t: Turn, choice: Option<nat>)
    requires |turns| == |chosen|
    ensures Legs(turns + [t], chosen + [choice]) == Legs(turns, chosen)
      + if choice.Some? && choice.value < |t.c.lookups| && t.c.lookups[choice.value].Some?
        then [t.c.lookups[choice.value].value.access] else []
  {
    assert (turns + [t])[..|turns + [t]| - 1] == turns;
    assert (chosen + [choice])[..|chosen + [choice]| - 1] == chosen;
  }

  /** How often a leg differs from the one before. */
  function Changes(legs: seq<int>): nat {
    if |legs| < 2 then 0 else (if legs[0] != legs[1] then 1 else 0) + Changes(legs[1..])
  }

  /** The legs that successive decisions on the samples pick, and the state after them. */
  function Picks(p: Policy, s: State, ts: Trace): seq<int> {
    if ts == [] then []
    else Picks(p, s, ts[..|ts|-1]) + [DecideOn(p, Ending(p, s, ts[..|ts|-1]), ts[|ts|-1]).leg]
  }

  function Ending(p: Policy, s: State, ts: Trace): State {
    if ts == [] then s else DecideOn(p, Ending(p, s, ts[..|ts|-1]), ts[|ts|-1]).next
  }

  lemma OneMorePick(p: Policy, s: State, ts: Trace, x: Sample)
    ensures Picks(p, s, ts + [x]) == Picks(p, s, ts) + [DecideOn(p, Ending(p, s, ts), x).leg]
    ensures Ending(p, s, ts + [x]) == DecideOn(p, Ending(p, s, ts), x).next
  {
    assert (ts + [x])[..|ts|] == ts;
  }

  /** Picks from the front. */
  lemma {:induction false} FirstPick(p: Policy, s: State, ts: Trace)
    requires ts != []
    ensures var d := DecideOn(p, s, ts[0]);
      Picks(p, s, ts) == [d.leg] + Picks(p, d.next, ts[1..]) && Ending(p, s, ts) == Ending(p, d.next, ts[1..])
    decreases |ts|
  {
    var d := DecideOn(p, s, ts[0]);
    if |ts| == 1 {
      assert ts[..0] == [] && ts[1..] == [];
    } else {
      var before := ts[..|ts|-1];
      FirstPick(p, s, before);
      assert before[1..] == ts[1..][..|ts|-2] && ts[1..][|ts|-2] == ts[|ts|-1];
      hide DecideOn;
    }
  }

  /** After the first choice the changes of leg are the switches of the kernel. */
  lemma {:induction false} ChangesAreSwitches(p: Policy, s: State, ts: Trace)
    requires Lowest(p) && p.rttDeltaUs > 0 && Settled(p, s) && Measured(ts)
    ensures Changes([s.previous as int] + Picks(p, s, ts)) == Switches(p, s, ts)
    decreases |ts|
  {
    if ts == [] {
    } else {
      assert Measured([ts[0]]);
      SettledDecision(p, s, ts[0]);
      FirstPick(p, s, ts);
      var d := DecideOn(p, s, ts[0]);
      hide DecideOn, Picks;
      ChangesAreSwitches(p, d.next, ts[1..]);
      var legs := [s.previous as int] + Picks(p, s, ts);
      assert legs[1..] == [d.next.previous as int] + Picks(p, d.next, ts[1..]);
    }
  }

  /** From any state of the socket, k changes of leg force the gap between the legs to travel
      far, and there is none while the gap stays within delta after the first choice. */
  lemma ChangesCost(p: Policy, s: State, ts: Trace)
    requires Lowest(p) && p.rttDeltaUs > 0 && Measured(ts)
    ensures var k := Changes(Picks(p, s, ts)); k > 0 ==> Variation(ts) >= 2 * (p.rttDeltaUs + 1) * (k - 1)
    ensures (forall i :: 1 <= i < |ts| ==> Abs(Gap(ts[i])) <= p.rttDeltaUs) ==> Changes(Picks(p, s, ts)) == 0
  {
    if ts != [] {
      assert Measured([ts[0]]);
      FirstDecisionSettles(p, s, ts[0]);
      FirstIsRecorded(p, s, ts[0]);
      FirstPick(p, s, ts);
      var next := DecideOn(p, s, ts[0]).next;
      hide DecideOn, Picks;
      AntiFlapping(p, s, ts);
      ChangesAreSwitches(p, next, ts[1..]);
      if forall i :: 1 <= i < |ts| ==> Abs(Gap(ts[i])) <= p.rttDeltaUs {
        NoSwitchWithinDelta(p, next, ts[1..]);
      }
    }
  }

  lemma FirstIsRecorded(p: Policy, s: State, t: Sample)
    requires Lowest(p) && Measured([t])
    ensures DecideOn(p, s, t).next.previous == DecideOn(p, s, t).leg
  {
    assert [t][0] == t;
  }

  lemma CandidatesAreBest(p: Policy, c: Call, ca: Candidate, cb: Candidate)
    requires c.Valid() && Lowest(p) && Supplied(p, c) && BestOffers(ca, cb, p, c)
    ensures BestRtts(p, c, Sample(ca.rttUs, cb.rttUs, ca.position, cb.position))
    ensures Measured([Sample(ca.rttUs, cb.rttUs, ca.position, cb.position)])
  {
    SuppliedIsOffered(p, c, ca, cb);
    assert [ca, cb][0] == ca && [ca, cb][1] == cb;
    CandidateIsLowest(p, c, ca, 0);
    CandidateIsLowest(p, c, cb, 1);
    hide Eligible, InPool, IsBest, LowestOn;
  }

  lemma CandidateIsLowest(p: Policy, c: Call, x: Candidate, leg: U32)
    requires c.Valid() && Lowest(p) && x.position != NONE
    requires IsBest(x, p, c, c.Scanned(), !PreferredActive(c, c.Scanned()), leg)
    ensures LowestOn(p, c, leg, x.position, x.rttUs) && x.rttUs != 0
  {
  }

  /** The state that the socket's next decision under `key` starts from. */
  ghost function Entering(storage: SocketStorage, key: ConnKey): State
    reads storage, storage.selection
  {
    Rekeyed(storage.selection.View(), storage.statsKey, key)
  }

  /** The next measured decision comes out the same from either state. */
  ghost predicate Alike(p: Policy, a: State, b: State) {
    forall x: Sample :: Measured([x]) ==> DecideOn(p, a, x) == DecideOn(p, b, x)
  }

  /** A starved call offers no candidate and schedules nothing. */
  lemma StarvedIsIdle(p: Policy, c: Call, ca: Candidate, cb: Candidate)
    requires c.Valid() && Lowest(p) && Starved(p, c) && BestOffers(ca, cb, p, c)
    ensures ca.position == NONE && cb.position == NONE
    ensures forall j: nat :: !Choosable(p, c, j)
  {
    assert [ca, cb][0] == ca && [ca, cb][1] == cb;
    StarvedHasNone(p, c, ca, 0);
    StarvedHasNone(p, c, cb, 1);
    hide IsBest, InPool, Starved, Choosable;
    forall j: nat
      ensures !Choosable(p, c, j)
    {
      StarvedChoosesNone(p, c, j);
    }
  }

  lemma StarvedChoosesNone(p: Policy, c: Call, j: nat)
    requires c.Valid() && Starved(p, c)
    ensures !Choosable(p, c, j)
  {
    ChoosableIsInPool(p, c, j);
  }

  lemma StarvedHasNone(p: Policy, c: Call, x: Candidate, leg: U32)
    requires c.Valid() && leg < 2 && Starved(p, c)
    requires IsBest(x, p, c, c.Scanned(), !PreferredActive(c, c.Scanned()), leg)
    ensures x.position == NONE
  {
  }

  lemma IdleIsAlike(p: Policy, s: State, ca: Candidate, cb: Candidate)
    requires Lowest(p) && ca.position == NONE && cb.position == NONE
    ensures Alike(p, Decide(p, s, ca, cb).next, s)
  {
    hide Decide, DecideOn;
    forall x: Sample | Measured([x])
      ensures DecideOn(p, Decide(p, s, ca, cb).next, x) == DecideOn(p, s, x)
    {
      IdleLeavesNoTrace(p, s, (ca, cb), x);
    }
  }

  /** One call: a decision on the best RTTs, or nothing that a later decision would notice. */
  method TakeRttTurn(storage: SocketStorage, key: ConnKey, p: Policy, t: Turn)
    returns (choice: Option<nat>, ghost x: Sample)
    requires storage.Valid() && key.netns != 0 && Lowest(p) && OutagedTurn(p, t)
    modifies storage.Repr()
    ensures storage.Valid() && RttTurnTaken(p, t, choice)
    ensures !Moves(p, t) ==> Alike(p, Entering(storage, key), old(Entering(storage, key)))
    ensures Moves(p, t) ==>
      && BestRtts(p, t.c, x) && Measured([x])
      && Entering(storage, key) == DecideOn(p, old(Entering(storage, key)), x).next
      && t.c.lookups[choice.value].value.access == DecideOn(p, old(Entering(storage, key)), x).leg
  {
    x := Sample(0, 0, 0, 0);
    ghost var last := Entering(storage, key);
    choice := Schedule(storage, key, t.policy, t.reinject, t.c);
    hide Choosable, BestOffers, Decide, Supplied, Starved, Eligible;
    assert Entering(storage, key) == storage.selection.View();
    if t.Decides() {
      var ca, cb := storage.candidates[0], storage.candidates[1];
      if Supplied(p, t.c) {
        SuppliedIsOffered(p, t.c, ca, cb);
        CandidatesAreBest(p, t.c, ca, cb);
        x := Sample(ca.rttUs, cb.rttUs, ca.position, cb.position);
        assert Candidate(x.positionA, x.a) == ca && Candidate(x.positionB, x.b) == cb;
      } else {
        StarvedIsIdle(p, t.c, ca, cb);
        IdleIsAlike(p, last, ca, cb);
      }
    }
  }

  /** Whatever the socket has been through, over any run of calls of a connection in one
      lowest-RTT generation, each with a measured subflow on both legs to choose from or on
      none, as while every send buffer is full: k changes of
      the leg scheduled force the difference between the best RTTs of the two legs to travel
      at least 2 * (delta + 1) * (k - 1); and while it stays within delta after the first
      choice, the leg does not change at all. */
  method TakeRttTurns(storage: SocketStorage, key: ConnKey, p: Policy, turns: seq<Turn>)
    returns (chosen: seq<Option<nat>>, ghost ts: Trace)
    requires storage.Valid() && key.netns != 0 && Lowest(p) && p.rttDeltaUs > 0 && Outaged(p, turns)
    modifies storage.Repr()
    ensures storage.Valid() && |chosen| == |turns|
    ensures forall i :: 0 <= i < |turns| ==> RttTurnTaken(p, turns[i], chosen[i])
    ensures |Legs(turns, chosen)| == |ts| && Sampled(p, turns, ts)
    ensures var k := Changes(Legs(turns, chosen)); k > 0 ==> Variation(ts) >= 2 * (p.rttDeltaUs + 1) * (k - 1)
    ensures (forall i :: 1 <= i < |ts| ==> Abs(Gap(ts[i])) <= p.rttDeltaUs) ==> Changes(Legs(turns, chosen)) == 0
  {
    chosen, ts := [], [];
    ghost var s := Entering(storage, key);
    assert turns[..0] == [];
    RttRunBegins(p, s);
    hide RttRun, RttTurnTaken, OutagedTurn, Entering, SocketStorage.Valid, Lowest;
    hide Legs, Sampled, Changes, Variation, Gap, Abs;
    for n := 0 to |turns|
      invariant storage.Valid() && |chosen| == n
      invariant forall i :: 0 <= i < n ==> RttTurnTaken(p, turns[i], chosen[i])
      invariant RttRun(p, s, turns[..n], chosen, ts, Entering(storage, key))
    {
      var choice;
      choice, ts := NextRttTurn(storage, key, p, s, turns[..n], chosen, ts, turns[n]);
      assert turns[..n] + [turns[n]] == turns[..n + 1];
      chosen := chosen + [choice];
    }
    assert turns[..|turns|] == turns;
    RttRunCosts(p, s, turns, chosen, ts, Entering(storage, key));
  }

  method NextRttTurn(storage: SocketStorage, key: ConnKey, p: Policy, ghost s: State, ghost before: seq<Turn>,
                     ghost chosen: seq<Option<nat>>, ghost ts: Trace, t: Turn)
    returns (choice: Option<nat>, ghost after: Trace)
    requires storage.Valid() && key.netns != 0 && Lowest(p) && OutagedTurn(p, t)
    requires RttRun(p, s, before, chosen, ts, Entering(storage, key))
    modifies storage.Repr()
    ensures storage.Valid() && RttTurnTaken(p, t, choice)
    ensures RttRun(p, s, before + [t], chosen + [choice], after, Entering(storage, key))
  {
    hide RttRun, RttTurnTaken, OutagedTurn, Entering, SocketStorage.Valid, Lowest, BestRtts, DecideOn;
    ghost var last := Entering(storage, key);
    ghost var x;
    choice, x := TakeRttTurn(storage, key, p, t);
    RttTurnCounted(p, s, before, chosen, ts, last, t, choice, x, Entering(storage, key));
    after := if Moves(p, t) then ts + [x] else ts;
  }

  lemma RttRunCosts(p: Policy, s: State, turns: seq<Turn>, chosen: seq<Option<nat>>, ts: Trace, now: State)
    requires Lowest(p) && p.rttDeltaUs > 0 && RttRun(p, s, turns, chosen, ts, now)
    ensures |Legs(turns, chosen)| == |ts| && Sampled(p, turns, ts)
    ensures var k := Changes(Legs(turns, chosen)); k > 0 ==> Variation(ts) >= 2 * (p.rttDeltaUs + 1) * (k - 1)
    ensures (forall i :: 1 <= i < |ts| ==> Abs(Gap(ts[i])) <= p.rttDeltaUs) ==> Changes(Legs(turns, chosen)) == 0
  {
    ChangesCost(p, s, ts);
    hide Legs, Sampled, Picks, Ending, Changes, Variation;
  }

  /** A run so far: one measured sample and one leg for each subflow scheduled, as the kernel
      picks. */
  ghost predicate RttRun(p: Policy, s: State, turns: seq<Turn>, chosen: seq<Option<nat>>, ts: Trace, now: State) {
    && |turns| == |chosen| && |ts| == |Legs(turns, chosen)|
    && Sampled(p, turns, ts) && Measured(ts)
    && Legs(turns, chosen) == Picks(p, s, ts) && Alike(p, now, Ending(p, s, ts))
  }

  lemma RttRunBegins(p: Policy, s: State)
    ensures RttRun(p, s, [], [], [], s)
  {
    hide DecideOn;
  }

  lemma RttTurnCounted(p: Policy, s: State, turns: seq<Turn>, chosen: seq<Option<nat>>, ts: Trace, last: State,
                       t: Turn, choice: Option<nat>, x: Sample, next: State)
    requires RttRun(p, s, turns, chosen, ts, last) && RttTurnTaken(p, t, choice)
    requires if Moves(p, t) then
        && BestRtts(p, t.c, x) && Measured([x]) && next == DecideOn(p, last, x).next
        && t.c.lookups[choice.value].value.access == DecideOn(p, last, x).leg
      else Alike(p, next, last)
    ensures RttRun(p, s, turns + [t], chosen + [choice], if Moves(p, t) then ts + [x] else ts, next)
  {
    OneMoreLeg(turns, chosen, t, choice);
    TakenIsClassified(p, t, choice);
    OneMoreSample(p, turns, ts, t, x);
    if Moves(p, t) {
      OneMorePick(p, s, ts, x);
      MoreMeasured(ts, x);
      assert DecideOn(p, last, x) == DecideOn(p, Ending(p, s, ts), x);
      SelfAlike(p, next);
    } else {
      AlikeComposes(p, next, last, Ending(p, s, ts));
    }
    hide DecideOn, BestRtts, Legs, Sampled, Picks, Ending, RttTurnTaken, Measured, Moves, Alike;
  }

  lemma SelfAlike(p: Policy, a: State)
    ensures Alike(p, a, a)
  {
    hide DecideOn;
  }

  lemma AlikeComposes(p: Policy, a: State, b: State, c: State)
    requires Alike(p, a, b) && Alike(p, b, c)
    ensures Alike(p, a, c)
  {
    hide DecideOn;
  }

  lemma TakenIsClassified(p: Policy, t: Turn, choice: Option<nat>)
    requires RttTurnTaken(p, t, choice)
    ensures Moves(p, t) <==> choice.Some? && choice.value < |t.c.lookups| && t.c.lookups[choice.value].Some?
  {
  }

  lemma MoreMeasured(ts: Trace, x: Sample)
    requires Measured(ts) && Measured([x])
    ensures Measured(ts + [x])
  {
    assert [x][0] == x;
  }
}
