/** One scheduler call: scan the subflows for the best candidate of each leg, then select. */
module Scheduler {
  import opened Words
  import opened Maps
  import opened Selection
  import Interleaving
  import Live

  const SUBFLOWS_MAX: nat := 8

  /** What the kernel reports about one subflow position. */
  datatype Subflow = Subflow(
    present: bool, active: bool, backup: bool, writable: bool, localId: Byte, remoteId: Byte, srttUs: U32)

  /** The smoothed RTT is kept in units of one eighth of a microsecond. */
  function Rtt(sf: Subflow): (r: U32)
    ensures 8 * r <= sf.srttUs < 8 * (r + 1)
  {
    sf.srttUs / 8
  }

  /** The subflows of a call, and what each path lookup returned. */
  datatype Call = Call(subflows: seq<Subflow>, lookups: seq<Option<MapPath>>) {
    ghost predicate Valid() {
      |subflows| == |lookups|
    }

    function Scanned(): nat {
      if |subflows| < SUBFLOWS_MAX then |subflows| else SUBFLOWS_MAX
    }
  }

  /** Active, writable, classified under the policy's generation and, in lowest-RTT mode,
      measured. */
  predicate Eligible(p: Policy, c: Call, j: nat)
    requires c.Valid()
  {
    && j < c.Scanned()
    && c.subflows[j].present && c.subflows[j].active && c.subflows[j].writable
    && c.lookups[j].Some? && c.lookups[j].value.generation == p.generation
    && c.lookups[j].value.access < 2
    && (p.mode == MODE_RTT ==> Rtt(c.subflows[j]) != 0)
  }

  predicate InPool(p: Policy, c: Call, j: nat, backup: bool, leg: U32)
    requires c.Valid()
  {
    Eligible(p, c, j) && c.subflows[j].backup == backup && c.lookups[j].value.access == leg
  }

  predicate Preferred(sf: Subflow) {
    sf.present && sf.active && !sf.backup
  }

  /** Some active subflow among the first n is not a backup. */
  ghost predicate PreferredActive(c: Call, n: nat)
    requires n <= c.Scanned()
  {
    exists j :: 0 <= j < n && Preferred(c.subflows[j])
  }

  /** Candidate `x` is the best of its pool among the first n positions: the lowest measured
      RTT, the earliest position on a tie, any only if nothing is measured. */
  ghost predicate IsBest(x: Candidate, p: Policy, c: Call, n: nat, backup: bool, leg: U32)
    requires c.Valid()
  {
    if x.position == NONE then
      x.rttUs == 0 && forall j: nat :: j < n ==> !InPool(p, c, j, backup, leg)
    else
      && 0 <= x.position < n && InPool(p, c, x.position, backup, leg)
      && x.rttUs == Rtt(c.subflows[x.position])
      && forall j: nat :: j < n && InPool(p, c, j, backup, leg) ==>
           && (Rtt(c.subflows[j]) != 0 ==> 0 < x.rttUs <= Rtt(c.subflows[j]))
           && (j < x.position ==> x.rttUs != 0 && (Rtt(c.subflows[j]) == 0 || x.rttUs < Rtt(c.subflows[j])))
  }

  lemma OfferKeepsBest(x: Candidate, p: Policy, c: Call, n: nat, backup: bool, leg: U32)
    requires c.Valid() && n < c.Scanned() && IsBest(x, p, c, n, backup, leg)
    ensures var y := if InPool(p, c, n, backup, leg) then Offered(x, n, Rtt(c.subflows[n])) else x;
      IsBest(y, p, c, n + 1, backup, leg)
  {
  }

  method Offer(slots: array<Candidate>, leg: U32, position: int, rttUs: U32)
    requires slots.Length == 2 && leg < 2
    modifies slots
    ensures slots[leg] == Offered(old(slots[leg]), position, rttUs)
    ensures slots[1 - leg] == old(slots[1 - leg])
  {
    if slots[leg].position == NONE || (rttUs != 0 && (slots[leg].rttUs == 0 || rttUs < slots[leg].rttUs)) {
      slots[leg] := Candidate(position, rttUs);
    }
  }

  ghost predicate Bests(slots: seq<Candidate>, p: Policy, c: Call, n: nat, backup: bool)
    requires c.Valid() && |slots| == 2
  {
    IsBest(slots[0], p, c, n, backup, 0) && IsBest(slots[1], p, c, n, backup, 1)
  }

  /** Considers one subflow position. */
  method Consider(p: Policy, c: Call, i: nat, candidates: array<Candidate>, backups: array<Candidate>)
    requires c.Valid() && i < c.Scanned()
    requires candidates.Length == 2 && backups.Length == 2 && candidates != backups
    requires Bests(candidates[..], p, c, i, false) && Bests(backups[..], p, c, i, true)
    modifies candidates, backups
    ensures Bests(candidates[..], p, c, i + 1, false) && Bests(backups[..], p, c, i + 1, true)
  {
    BestsKept(candidates[..], p, c, i, false);
    BestsKept(backups[..], p, c, i, true);
    hide IsBest, Offered;
    var sf := c.subflows[i];
    if !sf.present || !sf.active || !sf.writable { return; }
    if c.lookups[i].None? || c.lookups[i].value.generation != p.generation { return; }
    var access := c.lookups[i].value.access;
    if access >= 2 { return; }
    var rtt := Rtt(sf);
    if p.mode == MODE_RTT && rtt == 0 { return; }
    if sf.backup {
      Offer(backups, access, i, rtt);
    } else {
      Offer(candidates, access, i, rtt);
    }
  }

  lemma BestsKept(slots: seq<Candidate>, p: Policy, c: Call, i: nat, backup: bool)
    requires c.Valid() && |slots| == 2 && i < c.Scanned() && Bests(slots, p, c, i, backup)
    ensures forall leg: U32 :: leg < 2 ==>
      IsBest(if InPool(p, c, i, backup, leg) then Offered(slots[leg], i, Rtt(c.subflows[i])) else slots[leg],
             p, c, i + 1, backup, leg)
  {
    OfferKeepsBest(slots[0], p, c, i, backup, 0);
    OfferKeepsBest(slots[1], p, c, i, backup, 1);
  }

  /** Scans the subflows. The candidates left are the best of the non-backup subflows, or of
      the backups when no non-backup subflow is active. */
  method Scan(p: Policy, c: Call, candidates: array<Candidate>, backups: array<Candidate>)
    requires c.Valid()
    requires candidates.Length == 2 && backups.Length == 2 && candidates != backups
    modifies candidates, backups
    ensures Bests(candidates[..], p, c, c.Scanned(), !PreferredActive(c, c.Scanned()))
  {
    Clear(candidates);
    Clear(backups);
    NothingScanned(candidates[..], p, c, false);
    NothingScanned(backups[..], p, c, true);
    assert !PreferredActive(c, 0);
    hide Bests, PreferredActive;
    var active := false;
    var i := 0;
    while i < SUBFLOWS_MAX && i < |c.subflows|
      invariant i <= c.Scanned()
      invariant Bests(candidates[..], p, c, i, false) && Bests(backups[..], p, c, i, true)
      invariant active <==> PreferredActive(c, i)
    {
      Consider(p, c, i, candidates, backups);
      PreferredStep(c, i);
      if Preferred(c.subflows[i]) {
        active := true;
      }
      i := i + 1;
    }
    if !active {
      TakeOver(candidates, backups);
    }
  }

  method Clear(slots: array<Candidate>)
    requires slots.Length == 2
    modifies slots
    ensures slots[..] == [Candidate(NONE, 0), Candidate(NONE, 0)]
  {
    slots[0], slots[1] := Candidate(NONE, 0), Candidate(NONE, 0);
  }

  method TakeOver(candidates: array<Candidate>, backups: array<Candidate>)
    requires candidates.Length == 2 && backups.Length == 2 && candidates != backups
    modifies candidates
    ensures candidates[..] == backups[..] == old(backups[..])
  {
    candidates[0], candidates[1] := backups[0], backups[1];
  }

  lemma NothingScanned(slots: seq<Candidate>, p: Policy, c: Call, backup: bool)
    requires c.Valid() && slots == [Candidate(NONE, 0), Candidate(NONE, 0)]
    ensures Bests(slots, p, c, 0, backup)
  {
  }

  lemma PreferredStep(c: Call, i: nat)
    requires i < c.Scanned()
    ensures PreferredActive(c, i + 1) <==> PreferredActive(c, i) || Preferred(c.subflows[i])
  {
    if Preferred(c.subflows[i]) {
      assert PreferredActive(c, i + 1);
    }
  }

  predicate Permitted(p: Policy, leg: U32) {
    p.mode == MODE_WRR ==> if leg == 0 then p.weightA != 0 else p.weightB != 0
  }

  /** The specification of a choice: eligible, on a leg the policy uses, and a backup only if
      no non-backup subflow is active. */
  ghost predicate Choosable(p: Policy, c: Call, j: nat)
    requires c.Valid()
  {
    && Eligible(p, c, j)
    && Permitted(p, c.lookups[j].value.access)
    && (c.subflows[j].backup ==> !PreferredActive(c, c.Scanned()))
  }

  /** A choice, field by field: one of the first eight subflows, present, active and with room
      in its send buffer, classified under the policy's generation to one of the two legs; in
      weighted mode a leg of nonzero weight, in lowest-RTT mode with at least a microsecond
      of measured RTT; and a backup only if none of the first eight is an active non-backup. */
  lemma ChoosableOnFields(p: Policy, c: Call, j: nat)
    requires c.Valid()
    ensures Choosable(p, c, j) <==>
      && j < 8 && j < |c.subflows|
      && c.subflows[j].present && c.subflows[j].active && c.subflows[j].writable
      && c.lookups[j].Some? && c.lookups[j].value.generation == p.generation
      && c.lookups[j].value.access in {0, 1}
      && (p.mode == 1 ==> (if c.lookups[j].value.access == 0 then p.weightA else p.weightB) > 0)
      && (p.mode == 2 ==> c.subflows[j].srttUs >= 8)
      && (c.subflows[j].backup ==>
            forall i :: 0 <= i < 8 && i < |c.subflows| && c.subflows[i].present && c.subflows[i].active ==> c.subflows[i].backup)
  {
    if forall i :: 0 <= i < 8 && i < |c.subflows| && c.subflows[i].present && c.subflows[i].active ==> c.subflows[i].backup {
      assert !PreferredActive(c, c.Scanned());
    } else {
      var i :| 0 <= i < 8 && i < |c.subflows| && c.subflows[i].present && c.subflows[i].active && !c.subflows[i].backup;
      assert Preferred(c.subflows[i]);
    }
  }

  lemma ChoosableIsInPool(p: Policy, c: Call, j: nat)
    requires c.Valid()
    ensures Choosable(p, c, j) <==>
      && Eligible(p, c, j) && Permitted(p, c.lookups[j].value.access)
      && InPool(p, c, j, !PreferredActive(c, c.Scanned()), c.lookups[j].value.access)
  {
    if Eligible(p, c, j) && !c.subflows[j].backup {
      assert Preferred(c.subflows[j]);
    }
  }

  lemma WrrPicksUsable(p: Policy, s: State, ca: Candidate, cb: Candidate)
    requires Steers(p) && p.mode == MODE_WRR
    ensures var leg := Decide(p, s, ca, cb).leg;
      && (leg == NONE || leg == 0 || leg == 1)
      && (leg == 0 ==> ca.position != NONE && p.weightA != 0)
      && (leg == 1 ==> cb.position != NONE && p.weightB != 0)
      && (leg == NONE <==> (ca.position == NONE || p.weightA == 0) && (cb.position == NONE || p.weightB == 0))
  {
    hide Plus, Minus;
  }

  lemma RttPicksWithinDelta(p: Policy, s: State, ca: Candidate, cb: Candidate)
    requires Steers(p) && p.mode == MODE_RTT
    requires ca.position != NONE ==> ca.rttUs != 0
    requires cb.position != NONE ==> cb.rttUs != 0
    ensures var leg := Decide(p, s, ca, cb).leg;
      && (leg == NONE || leg == 0 || leg == 1)
      && (leg == 0 ==> ca.position != NONE && (cb.position != NONE ==> ca.rttUs <= cb.rttUs + p.rttDeltaUs))
      && (leg == 1 ==> cb.position != NONE && (ca.position != NONE ==> cb.rttUs <= ca.rttUs + p.rttDeltaUs))
      && (leg == NONE <==> ca.position == NONE && cb.position == NONE)
  {
  }

  /** Selecting among the best candidates refines the specification of a choice. */
  lemma SelectionRefines(p: Policy, s: State, c: Call, ca: Candidate, cb: Candidate)
    requires c.Valid() && Steers(p)
    requires Bests([ca, cb], p, c, c.Scanned(), !PreferredActive(c, c.Scanned()))
    ensures var pos := PositionOf(Decide(p, s, ca, cb).leg, ca, cb);
      && (pos == NONE <==> forall j: nat :: !Choosable(p, c, j))
      && (pos != NONE ==>
            && 0 <= pos && Choosable(p, c, pos)
            && c.lookups[pos].value.access == Decide(p, s, ca, cb).leg
            && (p.mode == MODE_RTT ==> forall j: nat :: Choosable(p, c, j) ==>
                  Rtt(c.subflows[pos]) <= Rtt(c.subflows[j]) + p.rttDeltaUs))
  {
    if p.mode == MODE_WRR {
      WrrPicksUsable(p, s, ca, cb);
    } else {
      RttPicksWithinDelta(p, s, ca, cb);
    }
    hide Decide;
    forall j: nat
      ensures Choosable(p, c, j) <==>
        && Eligible(p, c, j) && Permitted(p, c.lookups[j].value.access)
        && InPool(p, c, j, !PreferredActive(c, c.Scanned()), c.lookups[j].value.access)
    {
      ChoosableIsInPool(p, c, j);
    }
  }

  /** The storage the scheduler keeps with a socket. */
  class SocketStorage {
    const selection: Selector
    var statsKey: ConnKey
    const candidates: array<Candidate>
    const backups: array<Candidate>

    ghost predicate Valid()
      reads this, selection
    {
      candidates.Length == 2 && backups.Length == 2 && candidates != backups && CreditInv(selection.View())
    }

    ghost function Repr(): set<object> {
      {this, selection, candidates, backups}
    }

    constructor ()
      ensures Valid() && selection.View() == INITIAL && statsKey == ConnKey(0, 0, 0)
      ensures fresh(selection) && fresh(candidates) && fresh(backups)
    {
      selection := new Selector();
      statsKey := ConnKey(0, 0, 0);
      candidates := new Candidate[2](_ => Candidate(0, 0));
      backups := new Candidate[2](_ => Candidate(0, 0));
    }
  }

  function Rekeyed(s: State, last: ConnKey, key: ConnKey): State {
    if last.netns != 0 && (last.netns != key.netns || last.token != key.token) then s.(generation := 0) else s
  }

  /** The guards that hand the call to the kernel's default scheduler. */
  predicate Defaults(stored: bool, key: ConnKey, policy: Option<Policy>, reinject: bool) {
    !stored || key.netns == 0 || policy.None? || reinject || !Steers(policy.value)
  }

  /** When the call is the default scheduler's: no storage, no namespace, no policy, a
      reinjection, or a policy that is invalid or disabled. */
  lemma DefaultsOnFields(stored: bool, key: ConnKey, p: Policy, reinject: bool)
    ensures Defaults(stored, key, None, reinject)
    ensures !Defaults(stored, key, Some(p), reinject) <==>
      stored && key.netns > 0 && !reinject && PolicyValid(p) && p.enabled == 1
  {
  }

  /** A socket whose connection key has changed decides as a new one; under the same key it
      goes on from where it was. */
  lemma KeyChangeForgets(s: State, last: ConnKey, key: ConnKey, p: Policy, ca: Candidate, cb: Candidate)
    requires Steers(p) && last.netns > 0
    ensures last.netns != key.netns || last.token != key.token ==>
      Decide(p, Rekeyed(s, last, key), ca, cb) == Decide(p, INITIAL, ca, cb)
    ensures last.netns == key.netns && last.token == key.token ==>
      Decide(p, Rekeyed(s, last, key), ca, cb) == Decide(p, s, ca, cb)
  {
    hide DecideRtt, DecideWrr;
  }

  /** What the candidates are when the selection decides: for each leg the best of its pool. */
  ghost predicate BestOffers(ca: Candidate, cb: Candidate, p: Policy, c: Call)
    requires c.Valid()
  {
    Bests([ca, cb], p, c, c.Scanned(), !PreferredActive(c, c.Scanned()))
  }

  /** One call. None is the kernel's default scheduler; Some is the position scheduled. A
      call that goes to the default scheduler leaves the selection state alone, but for a
      change of the connection key; any other takes one decision on the best candidates. */
  method Schedule(storage: SocketStorage?, key: ConnKey, policy: Option<Policy>, reinject: bool, c: Call)
    returns (chosen: Option<nat>)
    requires c.Valid() && (storage != null ==> storage.Valid())
    modifies if storage != null then storage.Repr() else {}
    ensures storage != null ==> storage.Valid()
    ensures storage != null ==> storage.statsKey == if key.netns == 0 then old(storage.statsKey) else key
    ensures Defaults(storage != null, key, policy, reinject) ==> chosen.None?
    ensures storage != null && Defaults(true, key, policy, reinject) ==>
      storage.selection.View() ==
        if key.netns == 0 then old(storage.selection.View())
        else Rekeyed(old(storage.selection.View()), old(storage.statsKey), key)
    ensures !Defaults(storage != null, key, policy, reinject) ==>
      && (chosen.None? <==> forall j: nat :: !Choosable(policy.value, c, j))
      && (chosen.Some? ==> Choosable(policy.value, c, chosen.value))
      && (chosen.Some? && policy.value.mode == MODE_RTT ==> forall j: nat :: Choosable(policy.value, c, j) ==>
            Rtt(c.subflows[chosen.value]) <= Rtt(c.subflows[j]) + policy.value.rttDeltaUs)
      && BestOffers(storage.candidates[0], storage.candidates[1], policy.value, c)
      && var d := Decide(policy.value, Rekeyed(old(storage.selection.View()), old(storage.statsKey), key),
                         storage.candidates[0], storage.candidates[1]);
         && storage.selection.View() == d.next
         && (chosen.Some? ==> c.lookups[chosen.value].value.access == storage.selection.previous == d.leg)
  {
    if key.netns == 0 {
      return None;
    }
    if storage != null {
      if storage.statsKey.netns != 0
         && (storage.statsKey.netns != key.netns || storage.statsKey.token != key.token) {
        storage.selection.generation := 0;
      }
      storage.statsKey := key;
    }
    if policy.None? || reinject || !PolicyValid(policy.value) || policy.value.enabled == 0 || storage == null {
      return None;
    }
    Scan(policy.value, c, storage.candidates, storage.backups);
    var ca, cb := storage.candidates[0], storage.candidates[1];
    assert storage.candidates[..] == [ca, cb];
    ghost var before := storage.selection.View();
    SelectionRefines(policy.value, before, c, ca, cb);
    PickedIsRecorded(policy.value, before, ca, cb);
    DecideKeepsCreditInv(policy.value, before, ca, cb);
    hide Decide, CreditInv, Bests, Steers;
    var position := storage.selection.Select(policy.value, ca, cb);
    if position < 0 || position >= SUBFLOWS_MAX {
      return None;
    }
    chosen := Some(position);
  }

  lemma PickedIsRecorded(p: Policy, s: State, ca: Candidate, cb: Candidate)
    ensures var d := Decide(p, s, ca, cb); d.leg != NONE ==> d.next.previous == d.leg
  {
    hide Plus, Minus;
  }

  /** A pass interleaved in any way with the agent's writes: every subflow it can choose is
      classified by the plan of the generation it took its policy from. */
  lemma PassUsesOnePlan(history: seq<Content>, key: ConnKey, plans: Interleaving.Plans, pass: Interleaving.Pass,
                        c: Call, j: nat)
    requires c.Valid() && |pass.times| == |c.subflows|
    requires forall t :: 0 <= t < |history| ==> Interleaving.Ledger(history[t], key, plans)
    requires Interleaving.PassOver(pass, history, key)
    requires forall i :: 0 <= i < |c.subflows| ==>
      c.lookups[i] == Interleaving.Read(pass, history, i, PathKey(key, c.subflows[i].localId, c.subflows[i].remoteId))
    requires Choosable(history[pass.snapshot].policies[key], c, j)
    ensures var g := history[pass.snapshot].policies[key].generation;
      var k := PathKey(key, c.subflows[j].localId, c.subflows[j].remoteId);
      g in plans && k in plans[g] && c.lookups[j] == Some(plans[g][k])
  {
    Interleaving.NoMixedPlans(history, key, plans, pass, j,
                              PathKey(key, c.subflows[j].localId, c.subflows[j].remoteId));
  }

  /** Every policy the agent accepts for the maps is one the scheduler steers by, unless it
      is disabled. */
  lemma AcceptedPolicySteers(p: Live.LivePolicy)
    requires Live.ConfigValid(p)
    ensures PolicyValid(Live.MapPolicyOf(p)) && (Steers(Live.MapPolicyOf(p)) <==> p.enabled)
  {
  }
}
