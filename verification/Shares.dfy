/** The shares of the legs over runs of whole scheduler calls. */
module Shares {
  import opened Words
  import opened Maps
  import opened Selection
  import opened Scheduler
  import Fairness

  /** One call: what the policy lookup finds, whether it is a reinjection, the subflows. */
  datatype Turn = Turn(policy: Option<Policy>, reinject: bool, c: Call) {
    predicate Decides() {
      policy.Some? && !reinject
    }
  }

  /** The pool that the call chooses from has a subflow on each leg. */
  ghost predicate Supplied(p: Policy, c: Call)
    requires c.Valid()
  {
    var backup := !PreferredActive(c, c.Scanned());
    (exists i: nat :: InPool(p, c, i, backup, 0)) && (exists i: nat :: InPool(p, c, i, backup, 1))
  }

  /** Calls under one policy, which may be missing at times, with other calls in between that
      the default scheduler takes. */
  ghost predicate Steady(p: Policy, turns: seq<Turn>) {
    forall t :: t in turns ==> SteadyTurn(p, t)
  }

  ghost predicate SteadyTurn(p: Policy, t: Turn) {
    && t.c.Valid()
    && (t.policy.Some? ==> t.policy.value == p)
    && (t.Decides() ==> Supplied(p, t.c))
  }

  /** A call that decides schedules a subflow it may choose; the default scheduler's do not. */
  ghost predicate TurnTaken(p: Policy, t: Turn, choice: Option<nat>) {
    t.c.Valid() && if t.Decides() then choice.Some? && Choosable(p, t.c, choice.value) else choice.None?
  }

  function Decided(turns: seq<Turn>): nat {
    if turns == [] then 0
    else Decided(turns[..|turns|-1]) + if turns[|turns|-1].Decides() then 1 else 0
  }

  /** How many calls scheduled a subflow that the maps classify to `leg`. */
  function OnLeg(turns: seq<Turn>, chosen: seq<Option<nat>>, leg: U32): nat
    requires |turns| == |chosen|
  {
    if turns == [] then 0
    else
      var t, choice := turns[|turns|-1], chosen[|chosen|-1];
      OnLeg(turns[..|turns|-1], chosen[..|chosen|-1], leg)
      + if choice.Some? && choice.value < |t.c.lookups| && t.c.lookups[choice.value].Some?
           && t.c.lookups[choice.value].value.access == leg then 1 else 0
  }

  lemma OneMoreTurn(turns: seq<Turn>, chosen: seq<Option<nat>>, t: Turn, choice: Option<nat>, leg: U32)
    requires |turns| == |chosen|
    ensures Decided(turns + [t]) == Decided(turns) + if t.Decides() then 1 else 0
    ensures OnLeg(turns + [t], chosen + [choice], leg) == OnLeg(turns, chosen, leg)
      + if choice.Some? && choice.value < |t.c.lookups| && t.c.lookups[choice.value].Some?
           && t.c.lookups[choice.value].value.access == leg then 1 else 0
  {
    assert (turns + [t])[..|turns + [t]| - 1] == turns;
    assert (chosen + [choice])[..|chosen + [choice]| - 1] == chosen;
  }

  lemma PooledIsOffered(p: Policy, c: Call, i: nat, leg: U32, x: Candidate)
    requires c.Valid()
    requires InPool(p, c, i, !PreferredActive(c, c.Scanned()), leg)
    requires IsBest(x, p, c, c.Scanned(), !PreferredActive(c, c.Scanned()), leg)
    ensures x.position != NONE && (Permitted(p, leg) ==> Choosable(p, c, i))
  {
    ChoosableIsInPool(p, c, i);
  }

  /** A supplied call offers a candidate of each leg, and there is something to choose. */
  lemma SuppliedIsOffered(p: Policy, c: Call, ca: Candidate, cb: Candidate)
    requires c.Valid() && Steers(p) && Supplied(p, c) && BestOffers(ca, cb, p, c)
    ensures ca.position != NONE && cb.position != NONE
    ensures exists j: nat :: Choosable(p, c, j)
  {
    hide InPool, IsBest, Choosable;
    var i: nat :| InPool(p, c, i, !PreferredActive(c, c.Scanned()), 0);
    var j: nat :| InPool(p, c, j, !PreferredActive(c, c.Scanned()), 1);
    assert [ca, cb][0] == ca && [ca, cb][1] == cb;
    PooledIsOffered(p, c, i, 0, ca);
    PooledIsOffered(p, c, j, 1, cb);
    assert Permitted(p, 0) || Permitted(p, 1);
  }

  /** The credit of leg A that the socket's next decision under `key` starts from. */
  ghost function Owed(p: Policy, storage: SocketStorage, key: ConnKey): int
    reads storage, storage.selection
  {
    Fairness.Carried(p, Rekeyed(storage.selection.View(), storage.statsKey, key))
  }

  /** One call under the policy: a decision moves the credit as an exact round does, and the
      subflow scheduled is on the leg of the decision; any other call changes nothing. */
  method TakeTurn(storage: SocketStorage, key: ConnKey, p: Policy, t: Turn) returns (choice: Option<nat>, ghost leg: U32)
    requires storage.Valid() && key.netns != 0 && Fairness.Weighted(p) && SteadyTurn(p, t)
    modifies storage.Repr()
    ensures storage.Valid()
    ensures TurnTaken(p, t, choice)
    ensures !t.Decides() ==> Owed(p, storage, key) == old(Owed(p, storage, key))
    ensures t.Decides() ==>
      && t.c.lookups[choice.value].value.access == leg
      && ExactRound(p.weightA, old(Owed(p, storage, key)), Owed(p, storage, key), leg)
  {
    ghost var before := Rekeyed(storage.selection.View(), storage.statsKey, key);
    leg := 0;
    choice := Schedule(storage, key, t.policy, t.reinject, t.c);
    hide Choosable, BestOffers, Decide;
    assert Rekeyed(storage.selection.View(), storage.statsKey, key) == storage.selection.View();
    if t.Decides() {
      SuppliedIsOffered(p, t.c, storage.candidates[0], storage.candidates[1]);
      Fairness.RoundIsExact(p, before, storage.candidates[0], storage.candidates[1]);
      leg := storage.selection.previous;
    }
  }

  /** Whatever the socket has been through, over any run of calls of a connection under one
      weighted policy, with a subflow on each leg to choose from: the number of calls that
      schedule a subflow of leg A is off by less than one from its share of the calls decided,
      and of 100 decided calls exactly weightA go to leg A and weightB to leg B. */
  method TakeTurns(storage: SocketStorage, key: ConnKey, p: Policy, turns: seq<Turn>)
    returns (chosen: seq<Option<nat>>)
    requires storage.Valid() && key.netns != 0 && Fairness.Weighted(p) && Steady(p, turns)
    modifies storage.Repr()
    ensures storage.Valid() && |chosen| == |turns|
    ensures forall i :: 0 <= i < |turns| ==> TurnTaken(p, turns[i], chosen[i])
    ensures OnLeg(turns, chosen, 0) + OnLeg(turns, chosen, 1) == Decided(turns)
    ensures -100 < 100 * OnLeg(turns, chosen, 0) - Decided(turns) * p.weightA < 100
    ensures Decided(turns) == 100 ==>
      OnLeg(turns, chosen, 0) == p.weightA && OnLeg(turns, chosen, 1) == p.weightB
  {
    chosen := [];
    ghost var owed := Owed(p, storage, key);
    OwedIsSmall(p, storage, key);
    assert Balanced(0, 0, p.weightA, owed, owed) && OnLeg([], chosen, 0) == OnLeg([], chosen, 1) == Decided([]) == 0;
    assert turns[..0] == [];
    hide TurnTaken, SteadyTurn, Owed, OnLeg, Decided, Balanced, ExactRound, SocketStorage.Valid, Fairness.Weighted;
    for n := 0 to |turns|
      invariant storage.Valid() && |chosen| == n
      invariant forall i :: 0 <= i < n ==> TurnTaken(p, turns[i], chosen[i])
      invariant OnLeg(turns[..n], chosen, 0) + OnLeg(turns[..n], chosen, 1) == Decided(turns[..n])
      invariant Balanced(OnLeg(turns[..n], chosen, 0), Decided(turns[..n]), p.weightA, owed, Owed(p, storage, key))
    {
      ghost var last := Owed(p, storage, key);
      var choice, leg := TakeTurn(storage, key, p, turns[n]);
      TurnCounted(turns[..n], chosen, p, turns[n], choice, leg, owed, last, Owed(p, storage, key));
      assert turns[..n] + [turns[n]] == turns[..n + 1];
      chosen := chosen + [choice];
    }
    assert turns[..|turns|] == turns;
    OwedIsSmall(p, storage, key);
    SharesAreClose(p, OnLeg(turns, chosen, 0), OnLeg(turns, chosen, 1), Decided(turns), owed, Owed(p, storage, key));
  }

  lemma SharesAreClose(p: Policy, onA: nat, onB: nat, decided: nat, first: int, last: int)
    requires Fairness.Weighted(p) && Balanced(onA, decided, p.weightA, first, last) && onA + onB == decided
    requires -50 <= first < 50 && -50 <= last < 50
    ensures -100 < 100 * onA - decided * p.weightA < 100
    ensures decided == 100 ==> onA == p.weightA && onB == p.weightB
  {
    assert p.weightA + p.weightB == 100;
  }

  /** What leg A was owed is what it was served, up to the credit carried. */
  predicate Balanced(onA: nat, decided: nat, weightA: U32, first: int, last: int) {
    100 * onA == decided * weightA + first - last
  }

  lemma TurnCounted(turns: seq<Turn>, chosen: seq<Option<nat>>, p: Policy, t: Turn, choice: Option<nat>,
                    leg: U32, first: int, last: int, next: int)
    requires |turns| == |chosen| && TurnTaken(p, t, choice)
    requires if t.Decides() then t.c.lookups[choice.value].value.access == leg && ExactRound(p.weightA, last, next, leg)
             else next == last
    requires OnLeg(turns, chosen, 0) + OnLeg(turns, chosen, 1) == Decided(turns)
    requires Balanced(OnLeg(turns, chosen, 0), Decided(turns), p.weightA, first, last)
    ensures var after, choices := turns + [t], chosen + [choice];
      && OnLeg(after, choices, 0) + OnLeg(after, choices, 1) == Decided(after)
      && Balanced(OnLeg(after, choices, 0), Decided(after), p.weightA, first, next)
  {
    OneMoreTurn(turns, chosen, t, choice, 0);
    OneMoreTurn(turns, chosen, t, choice, 1);
    hide Balanced, OnLeg, Decided, BestOffers, Permitted, PreferredActive;
    TurnBalances(OnLeg(turns, chosen, 0), Decided(turns), p.weightA, first, last, next, leg, t.Decides());
  }

  lemma TurnBalances(onA: nat, decided: nat, weightA: U32, first: int, last: int, next: int, leg: U32, decides: bool)
    requires Balanced(onA, decided, weightA, first, last)
    requires if decides then ExactRound(weightA, last, next, leg) else next == last
    ensures Balanced(onA + if decides && leg == 0 then 1 else 0, decided + if decides then 1 else 0, weightA, first, next)
    ensures decides ==> leg < 2
  {
    assert (decided + 1) * weightA == decided * weightA + weightA;
  }

  lemma OwedIsSmall(p: Policy, storage: SocketStorage, key: ConnKey)
    requires storage.Valid()
    ensures -50 <= Owed(p, storage, key) < 50
  {
  }
}
