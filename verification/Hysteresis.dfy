/** Whole runs of the selection kernel in lowest-RTT mode: hysteresis bounds flapping. */
module Hysteresis {
  import opened Words
  import opened Selection

  /** Successive RTT measurements of the two legs, both measured. */
  datatype Sample = Sample(a: U32, b: U32, positionA: int, positionB: int)

  type Trace = seq<Sample>

  predicate Measured(ts: Trace) {
    forall i :: 0 <= i < |ts| ==>
      ts[i].a != 0 && ts[i].b != 0 && ts[i].positionA != NONE && ts[i].positionB != NONE
  }

  predicate Lowest(p: Policy) {
    Steers(p) && p.mode == MODE_RTT
  }

  function DecideOn(p: Policy, s: State, t: Sample): Decision {
    Decide(p, s, Candidate(t.positionA, t.a), Candidate(t.positionB, t.b))
  }

  /** The state has already chosen a leg under this policy's generation and mode. */
  predicate Settled(p: Policy, s: State) {
    s.generation == p.generation && s.mode == p.mode && (s.previous == 0 || s.previous == 1)
  }

  /** How many decisions of the run choose another leg than the one before. */
  function Switches(p: Policy, s: State, ts: Trace): nat
    decreases |ts|
  {
    if ts == [] then 0
    else
      var d := DecideOn(p, s, ts[0]);
      (if d.leg != s.previous then 1 else 0) + Switches(p, d.next, ts[1..])
  }

  function Gap(t: Sample): int { t.a - t.b }

  function Abs(x: int): nat { if x < 0 then -x else x }

  /** Total variation of rttA - rttB along the run. */
  function Variation(ts: Trace): nat
    decreases |ts|
  {
    if |ts| < 2 then 0 else Abs(Gap(ts[1]) - Gap(ts[0])) + Variation(ts[1..])
  }

  /** A settled decision leaves its leg only for an improvement of more than delta. The
      unsigned subtraction of the source never wraps. */
  lemma SettledDecision(p: Policy, s: State, t: Sample)
    requires Lowest(p) && p.rttDeltaUs > 0 && Settled(p, s) && Measured([t])
    ensures var d := DecideOn(p, s, t);
      && Settled(p, d.next) && d.next.previous == d.leg
      && (s.previous == 0 ==> (d.leg == 1 <==> Gap(t) > p.rttDeltaUs))
      && (s.previous == 1 ==> (d.leg == 0 <==> -Gap(t) > p.rttDeltaUs))
  {
    assert [t][0] == t;
  }

  /** The distance of a gap from the threshold at which `leg` is left. */
  function ToThreshold(margin: int, leg: int, gap: int): nat {
    var need := margin - (if leg == 0 then gap else -gap);
    if need < 0 then 0 else need
  }

  /** Variation that pays for `switches` switches, the first one starting from `gap`. */
  predicate Pays(variation: int, margin: int, leg: int, gap: int, switches: nat) {
    switches > 0 ==> variation >= ToThreshold(margin, leg, gap) + 2 * margin * (switches - 1)
  }

  lemma PaysStep(variation: int, margin: int, leg: int, gap: int, next: int, nextGap: int, switches: nat)
    requires margin > 0 && (leg == 0 || leg == 1) && (next == 0 || next == 1)
    requires leg != next ==> ToThreshold(margin, leg, gap) == 0
    requires Pays(variation, margin, next, nextGap, switches) && switches > 0
    ensures Pays(variation + Abs(nextGap - gap), margin, leg, gap, switches + if leg == next then 0 else 1)
  {
    assert 2 * margin * switches == 2 * margin * (switches - 1) + 2 * margin;
  }

  /** Candidates of a decision in which no leg has a measured subflow. */
  type Idle = x: (Candidate, Candidate) | Unusable(x.0) && Unusable(x.1) witness (Candidate(NONE, 0), Candidate(NONE, 0))

  predicate Unusable(c: Candidate) {
    c.position == NONE || c.rttUs == 0
  }

  /** The state after decisions without a usable leg. */
  function AfterIdle(p: Policy, s: State, xs: seq<Idle>): State {
    if xs == [] then s
    else Decide(p, AfterIdle(p, s, xs[..|xs|-1]), xs[|xs|-1].0, xs[|xs|-1].1).next
  }

  /** One decision without a usable leg picks none, leaves a settled state as it is, and the
      next measured decision does not notice it. */
  lemma IdleLeavesNoTrace(p: Policy, s: State, x: Idle, t: Sample)
    requires Lowest(p) && Measured([t])
    ensures Decide(p, s, x.0, x.1).leg == NONE
    ensures Settled(p, s) ==> Decide(p, s, x.0, x.1).next == s
    ensures DecideOn(p, Decide(p, s, x.0, x.1).next, t) == DecideOn(p, s, t)
  {
    assert Unusable(x.0) && Unusable(x.1);
  }

  /** Hysteresis survives outages: after any number of decisions without a usable leg, the
      next measured decision leaves the leg chosen last exactly for an improvement of more
      than delta. */
  lemma {:induction false} SurvivesOutage(p: Policy, s: State, xs: seq<Idle>, t: Sample)
    requires Lowest(p) && p.rttDeltaUs > 0 && Settled(p, s) && Measured([t])
    ensures AfterIdle(p, s, xs) == s
    ensures var d := DecideOn(p, AfterIdle(p, s, xs), t);
      && (s.previous == 0 ==> (d.leg == 1 <==> Gap(t) > p.rttDeltaUs))
      && (s.previous == 1 ==> (d.leg == 0 <==> -Gap(t) > p.rttDeltaUs))
    decreases |xs|
  {
    SettledDecision(p, s, t);
    if xs != [] {
      SurvivesOutage(p, s, xs[..|xs|-1], t);
      IdleLeavesNoTrace(p, s, xs[|xs|-1], t);
      hide Decide, DecideOn;
    }
  }

  lemma {:induction false} SwitchesCost(p: Policy, s: State, ts: Trace)
    requires Lowest(p) && p.rttDeltaUs > 0 && Settled(p, s) && Measured(ts) && |ts| > 0
    ensures Pays(Variation(ts), p.rttDeltaUs + 1, s.previous, Gap(ts[0]), Switches(p, s, ts))
    decreases |ts|
  {
    hide DecideOn, Switches, Variation, Pays, Settled;
    var t, rest := ts[0], ts[1..];
    assert Measured([t]);
    SettledDecision(p, s, t);
    RunStep(p, s, ts);
    var d := DecideOn(p, s, t);
    LegsAreTwo(p, s, d.next);
    if rest == [] || Switches(p, d.next, rest) == 0 {
      PaysFirst(Variation(ts), p.rttDeltaUs + 1, s.previous, Gap(t), d.leg);
    } else {
      SwitchesCost(p, d.next, rest);
      PaysStep(Variation(rest), p.rttDeltaUs + 1, s.previous, Gap(t), d.leg, Gap(rest[0]), Switches(p, d.next, rest));
    }
  }

  lemma LegsAreTwo(p: Policy, s: State, next: State)
    requires Settled(p, s) && Settled(p, next)
    ensures s.previous in {0, 1} && next.previous in {0, 1}
  {
  }

  lemma RunStep(p: Policy, s: State, ts: Trace)
    requires |ts| > 0
    ensures var d := DecideOn(p, s, ts[0]);
      Switches(p, s, ts) == Switches(p, d.next, ts[1..]) + if d.leg == s.previous then 0 else 1
    ensures |ts| == 1 ==> Switches(p, DecideOn(p, s, ts[0]).next, ts[1..]) == 0
    ensures |ts| > 1 ==> Variation(ts) == Variation(ts[1..]) + Abs(Gap(ts[1]) - Gap(ts[0]))
  {
    hide DecideOn;
  }

  lemma PaysFirst(variation: nat, margin: int, leg: int, gap: int, next: int)
    requires leg != next ==> ToThreshold(margin, leg, gap) == 0
    ensures Pays(variation, margin, leg, gap, if leg == next then 0 else 1)
  {
  }

  lemma FirstDecisionSettles(p: Policy, s: State, t: Sample)
    requires Lowest(p) && Measured([t])
    ensures Settled(p, DecideOn(p, s, t).next)
  {
    assert [t][0] == t;
  }

  /** Anti-flapping: within one generation, k switches after the first choice force the
      difference of the two RTTs to travel at least 2 * (delta + 1) * (k - 1). */
  lemma AntiFlapping(p: Policy, s: State, ts: Trace)
    requires Lowest(p) && p.rttDeltaUs > 0 && Measured(ts) && |ts| > 0
    ensures var k := Switches(p, DecideOn(p, s, ts[0]).next, ts[1..]);
      k > 0 ==> Variation(ts) >= 2 * (p.rttDeltaUs + 1) * (k - 1)
  {
    hide DecideOn, Switches;
    assert Measured([ts[0]]);
    FirstDecisionSettles(p, s, ts[0]);
    if |ts| > 1 {
      SwitchesCost(p, DecideOn(p, s, ts[0]).next, ts[1..]);
    } else {
      NoSamples(p, DecideOn(p, s, ts[0]).next, ts[1..]);
    }
  }

  lemma NoSamples(p: Policy, s: State, ts: Trace)
    requires ts == []
    ensures Switches(p, s, ts) == 0
  {
  }

  /** RTTs that never differ by more than delta never cause a switch. */
  lemma {:induction false} NoSwitchWithinDelta(p: Policy, s: State, ts: Trace)
    requires Lowest(p) && p.rttDeltaUs > 0 && Settled(p, s) && Measured(ts)
    requires forall i :: 0 <= i < |ts| ==> Abs(Gap(ts[i])) <= p.rttDeltaUs
    ensures Switches(p, s, ts) == 0
    decreases |ts|
  {
    if ts == [] {
    } else {
      assert Measured([ts[0]]);
      assert Abs(Gap(ts[0])) <= p.rttDeltaUs;
      SettledDecision(p, s, ts[0]);
      NoSwitchWithinDelta(p, DecideOn(p, s, ts[0]).next, ts[1..]);
    }
  }

  /** Without a margin, or right after a change of generation or mode, history plays no part:
      the leg of the lower RTT is chosen, leg A on a tie. */
  lemma FreshChoiceIsMinimum(p: Policy, s: State, t: Sample)
    requires Lowest(p) && Measured([t])
    requires p.rttDeltaUs == 0 || s.generation != p.generation || s.mode != p.mode
    ensures DecideOn(p, s, t).leg == if t.b < t.a then 1 else 0
  {
    assert [t][0] == t;
  }
}
