/** Whole runs of the selection kernel in weighted round robin mode. */
module Fairness {
  import opened Selection

  /** One thing that can happen to the selection state of a socket: a decision under
      whatever policy is in force, or the socket's connection key changing, which clears
      the stored generation. */
  datatype Step = Select(p: Policy, ca: Candidate, cb: Candidate) | Rekey

  function Apply(s: State, step: Step): State {
    match step
    case Select(p, ca, cb) => Decide(p, s, ca, cb).next
    case Rekey => s.(generation := 0)
  }

  function Reached(s: State, steps: seq<Step>): State {
    if steps == [] then s else Apply(Reached(s, steps[..|steps|-1]), steps[|steps|-1])
  }

  /** The credit invariant over any run from the zero-filled socket storage. */
  lemma {:induction false} ReachedKeepsCreditInv(steps: seq<Step>)
    ensures CreditInv(Reached(INITIAL, steps))
  {
    if steps == [] {
    } else {
      var before := steps[..|steps|-1];
      ReachedKeepsCreditInv(before);
      match steps[|steps|-1]
      case Select(p, ca, cb) => DecideKeepsCreditInv(p, Reached(INITIAL, before), ca, cb);
      case Rekey =>
    }
  }

  /** Candidates of successive decisions, both legs usable in each. */
  type Offers = seq<(Candidate, Candidate)>

  predicate BothAvailable(cs: Offers) {
    forall i :: 0 <= i < |cs| ==> cs[i].0.position != NONE && cs[i].1.position != NONE
  }

  predicate Weighted(p: Policy) {
    Steers(p) && p.mode == MODE_WRR
  }

  function After(p: Policy, s: State, cs: Offers): State
    decreases |cs|
  {
    if cs == [] then s else After(p, Decide(p, s, cs[0].0, cs[0].1).next, cs[1..])
  }

  /** How many of the decisions picked `leg`. */
  function Count(p: Policy, s: State, cs: Offers, leg: int): nat
    decreases |cs|
  {
    if cs == [] then 0
    else
      var d := Decide(p, s, cs[0].0, cs[0].1);
      (if d.leg == leg then 1 else 0) + Count(p, d.next, cs[1..], leg)
  }

  /** The credit of leg A that the next decision under `p` starts from. */
  function Carried(p: Policy, s: State): int {
    if s.generation == p.generation && s.mode == p.mode && s.mask == 3
       && p.weightA != 0 && p.weightB != 0
    then s.creditA else 0
  }

  lemma RoundIsExact(p: Policy, s: State, ca: Candidate, cb: Candidate)
    requires Weighted(p) && CreditInv(s)
    requires ca.position != NONE && cb.position != NONE
    ensures var d := Decide(p, s, ca, cb);
      ExactRound(p.weightA, Carried(p, s), Carried(p, d.next), d.leg)
    ensures CreditInv(Decide(p, s, ca, cb).next)
  {
    hide DecideWrr;
    var s1 := if s.generation != p.generation || s.mode != p.mode then Fresh(p) else s;
    WrrIsExact(p, s1, ca, cb);
    assert p.weightA + p.weightB == 100;
  }

  /** Conservation: what leg A was owed is what it was served, up to the credit carried. */
  lemma {:induction false} Conservation(p: Policy, s: State, cs: Offers)
    requires Weighted(p) && CreditInv(s) && BothAvailable(cs)
    ensures 100 * Count(p, s, cs, 0) == |cs| * p.weightA + Carried(p, s) - Carried(p, After(p, s, cs))
    ensures Count(p, s, cs, 0) + Count(p, s, cs, 1) == |cs|
    ensures CreditInv(After(p, s, cs))
    decreases |cs|
  {
    if cs == [] {
    } else {
      RoundIsExact(p, s, cs[0].0, cs[0].1);
      var d := Decide(p, s, cs[0].0, cs[0].1);
      Conservation(p, d.next, cs[1..]);
      assert |cs| * p.weightA == p.weightA + (|cs| - 1) * p.weightA;
      hide Decide;
      assert Count(p, s, cs, 0) == (if d.leg == 0 then 1 else 0) + Count(p, d.next, cs[1..], 0);
      assert Count(p, s, cs, 1) == (if d.leg == 1 then 1 else 0) + Count(p, d.next, cs[1..], 1);
      assert After(p, s, cs) == After(p, d.next, cs[1..]);
    }
  }

  /** Closed form: from a state whose credits the first decision resets (or that carries
      none), n decisions pick leg A exactly floor((n * weightA + 50) / 100) times. */
  lemma ClosedForm(p: Policy, s: State, cs: Offers)
    requires Weighted(p) && CreditInv(s) && BothAvailable(cs)
    requires s.generation != p.generation || s.mode != p.mode || s.mask != 3 || s.creditA == 0
    ensures Count(p, s, cs, 0) == (|cs| * p.weightA + 50) / 100
    ensures Count(p, s, cs, 1) == |cs| - (|cs| * p.weightA + 50) / 100
  {
    Conservation(p, s, cs);
  }

  /** An outage leaves no debt: after a decision that one leg could not take, and any history
      before it, the following decisions are served as from a reset. */
  lemma AfterOutage(history: seq<Step>, p: Policy, ca: Candidate, cb: Candidate, cs: Offers)
    requires Weighted(p) && BothAvailable(cs) && (ca.position == NONE || cb.position == NONE)
    ensures var s := Decide(p, Reached(INITIAL, history), ca, cb).next;
      Count(p, s, cs, 0) == (|cs| * p.weightA + 50) / 100
  {
    hide Count, Reached;
    ReachedKeepsCreditInv(history);
    var s := Reached(INITIAL, history);
    OneLegKeepsNoCredit(p, s, ca, cb);
    ClosedForm(p, Decide(p, s, ca, cb).next, cs);
  }

  lemma OneLegKeepsNoCredit(p: Policy, s: State, ca: Candidate, cb: Candidate)
    requires Weighted(p) && CreditInv(s) && (ca.position == NONE || cb.position == NONE)
    ensures CreditInv(Decide(p, s, ca, cb).next) && Decide(p, s, ca, cb).next.mask != 3
  {
    hide DecideWrr;
    var s1 := if s.generation != p.generation || s.mode != p.mode then Fresh(p) else s;
    WrrIsExact(p, s1, ca, cb);
  }

  /** Any window of decisions, after any history of the socket whatsoever: the share of leg
      A is off by less than one decision, and 100 decisions are exact. */
  lemma Window(history: seq<Step>, p: Policy, cs: Offers)
    requires Weighted(p) && BothAvailable(cs)
    ensures var a := Count(p, Reached(INITIAL, history), cs, 0);
      && -100 < 100 * a - |cs| * p.weightA < 100
      && (|cs| == 100 ==> a == p.weightA)
  {
    hide Count, After, Reached;
    ReachedKeepsCreditInv(history);
    Conservation(p, Reached(INITIAL, history), cs);
  }

  /** No starvation: a leg of weight w is picked at least once in any n consecutive
      decisions with n * w >= 100, that is in any ceil(100 / w), after any history. */
  lemma NoStarvation(history: seq<Step>, p: Policy, cs: Offers)
    requires Weighted(p) && BothAvailable(cs)
    ensures |cs| * p.weightA >= 100 ==> Count(p, Reached(INITIAL, history), cs, 0) > 0
    ensures |cs| * p.weightB >= 100 ==> Count(p, Reached(INITIAL, history), cs, 1) > 0
  {
    hide Count, After, Reached;
    ReachedKeepsCreditInv(history);
    Conservation(p, Reached(INITIAL, history), cs);
    assert |cs| * p.weightA + |cs| * p.weightB == |cs| * 100;
  }
}
