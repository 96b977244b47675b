/** The selection kernel: credit-based weighted round robin and RTT hysteresis over two legs.

    `Decide` is the value-level meaning of one call of the kernel, with the 32-bit
    arithmetic written out; class `Selector` updates the state in place and is proved
    to compute exactly that. */
module Selection {
  import opened Words
  import opened Maps

  const MODE_WRR: U32 := 1
  const MODE_RTT: U32 := 2
  const NONE: int := -1

  type Policy = MapPolicy

  /** One candidate per leg; position NONE means the leg has no usable subflow. */
  datatype Candidate = Candidate(position: int, rttUs: U32)

  datatype State = State(
    generation: U32, mode: U32, creditA: S32, creditB: S32, mask: U32, previous: S32)

  /** The decision taken: the state after the call and the leg chosen (NONE, 0 or 1). */
  datatype Decision = Decision(next: State, leg: int)

  predicate PolicyValid(p: Policy) {
    && p.generation != 0 && p.enabled <= 1
    && (p.mode == MODE_WRR || p.mode == MODE_RTT)
    && p.weightA <= 100 && p.weightB <= 100
    && WrapU32(p.weightA + p.weightB) == 100
  }

  predicate Steers(p: Policy) {
    PolicyValid(p) && p.enabled != 0
  }

  function Fresh(p: Policy): State {
    State(p.generation, p.mode, 0, 0, 0, NONE)
  }

  /** Socket storage is created zero-filled. */
  const INITIAL: State := State(0, 0, 0, 0, 0, 0)

  function Offered(c: Candidate, position: int, rttUs: U32): Candidate {
    if c.position == NONE || (rttUs != 0 && (c.rttUs == 0 || rttUs < c.rttUs))
    then Candidate(position, rttUs) else c
  }

  // credit += weight and credit -= total, evaluated in unsigned 32-bit arithmetic
  function Plus(credit: S32, weight: U32): S32 {
    AsS32(WrapU32(WrapU32(credit) + weight))
  }

  function Minus(credit: S32, total: U32): S32 {
    AsS32(WrapU32(WrapU32(credit) - total))
  }

  function DecideRtt(p: Policy, s: State, ca: Candidate, cb: Candidate): Decision {
    var a := ca.position != NONE && ca.rttUs != 0;
    var b := cb.position != NONE && cb.rttUs != 0;
    if !a && !b then Decision(s, NONE)
    else
      var best := if !a then 1 else if !b then 0 else if cb.rttUs < ca.rttUs then 1 else 0;
      var prev := s.previous;
      var keep :=
        && p.rttDeltaUs != 0 && a && b && (prev == 0 || prev == 1)
        && WrapU32((if prev == 0 then ca.rttUs else cb.rttUs)
                   - (if best == 0 then ca.rttUs else cb.rttUs)) <= p.rttDeltaUs;
      var pick := if keep then prev else best;
      Decision(s.(previous := pick), pick)
  }

  /** Charges the usable legs their weight and takes the round's total from the leg picked. */
  function Charge(p: Policy, s: State, a: bool, b: bool): Decision
    requires a || b
  {
    var up1: S32 := if a then Plus(s.creditA, p.weightA) else s.creditA;
    var up2: S32 := if b then Plus(s.creditB, p.weightB) else s.creditB;
    var pick := if !a then 1 else if !b then 0 else if up2 > up1 then 1 else 0;
    var total := WrapU32((if a then p.weightA else 0) + (if b then p.weightB else 0));
    Decision(
      s.(creditA := if pick == 0 then Minus(up1, total) else up1,
         creditB := if pick == 1 then Minus(up2, total) else up2,
         previous := pick),
      pick)
  }

  function Mask(a: bool, b: bool): U32 {
    if a then (if b then 3 else 1) else if b then 2 else 0
  }

  /** A change of the set of usable legs discards the credits. */
  function Masked(s: State, mask: U32): State {
    if mask != s.mask then s.(creditA := 0, creditB := 0, mask := mask) else s
  }

  function DecideWrr(p: Policy, s: State, ca: Candidate, cb: Candidate): Decision {
    var a := ca.position != NONE && p.weightA != 0;
    var b := cb.position != NONE && p.weightB != 0;
    var s := Masked(s, Mask(a, b));
    if !a && !b then Decision(s, NONE) else Charge(p, s, a, b)
  }

  function Decide(p: Policy, s: State, ca: Candidate, cb: Candidate): Decision {
    if !Steers(p) then Decision(s, NONE)
    else
      var s := if s.generation != p.generation || s.mode != p.mode then Fresh(p) else s;
      if p.mode == MODE_RTT then DecideRtt(p, s, ca, cb) else DecideWrr(p, s, ca, cb)
  }

  function PositionOf(leg: int, ca: Candidate, cb: Candidate): int {
    if leg == NONE then NONE else if leg == 0 then ca.position else cb.position
  }

  /** A policy the kernel takes, field by field. */
  lemma PolicyValidOnFields(p: Policy)
    ensures PolicyValid(p) <==>
      && p.generation > 0 && p.enabled in {0, 1} && p.mode in {1, 2}
      && p.weightA <= 100 && p.weightB <= 100 && p.weightA + p.weightB == 100
  {
  }

  /** A disabled or invalid policy in between leaves no trace. */
  lemma DisabledLeavesNoTrace(q: Policy, s: State, xa: Candidate, xb: Candidate, p: Policy, ca: Candidate, cb: Candidate)
    requires !PolicyValid(q) || q.enabled == 0
    ensures Decide(q, s, xa, xb).leg == NONE
    ensures Decide(p, Decide(q, s, xa, xb).next, ca, cb) == Decide(p, s, ca, cb)
  {
    hide DecideRtt, DecideWrr;
  }

  /** A candidate is replaced by a strictly lower measured RTT only; the first one stays on a
      tie, and an unmeasured one gives way to any measured one. */
  lemma OfferedOnFields(c: Candidate, position: int, rttUs: U32)
    ensures c.position == NONE ==> Offered(c, position, rttUs) == Candidate(position, rttUs)
    ensures c.position != NONE && c.rttUs > 0 ==>
      Offered(c, position, rttUs) == if 0 < rttUs < c.rttUs then Candidate(position, rttUs) else c
    ensures c.position != NONE && c.rttUs == 0 ==>
      Offered(c, position, rttUs) == if rttUs > 0 then Candidate(position, rttUs) else c
  {
  }

  /** What every call keeps, whatever policy it is given: the credits cancel, leg A's
      credit stays within half a round, and there is credit only while both legs are in
      the stored mask. */
  predicate CreditInv(s: State) {
    && s.creditA + s.creditB == 0
    && -50 <= s.creditA < 50
    && (s.mask != 3 ==> s.creditA == 0)
  }

  /** In exact integers, one weighted decision with both legs usable. */
  predicate ExactRound(weightA: int, before: int, after: int, leg: int) {
    if before + weightA >= 50 then leg == 0 && after == before + weightA - 100
    else leg == 1 && after == before + weightA
  }

  lemma SmallPlus(credit: S32, weight: U32)
    requires -200 <= credit <= 200 && weight <= 200
    ensures Plus(credit, weight) == credit + weight
  {
  }

  lemma SmallMinus(credit: S32, total: U32)
    requires -200 <= credit <= 200 && total <= 200
    ensures Minus(credit, total) == credit - total
  {
  }

  /** Under the invariant the machine arithmetic of a weighted decision is the arithmetic
      of the integers. */
  lemma ChargeIsExact(p: Policy, s: State, a: bool, b: bool)
    requires Steers(p) && CreditInv(s) && (a || b) && (!(a && b) ==> s.creditA == 0)
    ensures var d := Charge(p, s, a, b);
      && d.next == s.(creditA := d.next.creditA, creditB := -d.next.creditA, previous := d.leg)
      && (a && b ==> ExactRound(p.weightA, s.creditA, d.next.creditA, d.leg))
      && (!(a && b) ==> d.next.creditA == 0 && d.leg == if a then 0 else 1)
  {
    SmallPlus(s.creditA, p.weightA);
    SmallPlus(s.creditB, p.weightB);
    SmallMinus(s.creditA + p.weightA, if b then 100 else p.weightA);
    SmallMinus(s.creditB + p.weightB, if a then 100 else p.weightB);
    assert p.weightA + p.weightB == 100;
    if a && b {
    } else if a {
    } else {
    }
  }

  lemma WrrIsExact(p: Policy, s: State, ca: Candidate, cb: Candidate)
    requires Steers(p) && CreditInv(s)
    ensures var d := DecideWrr(p, s, ca, cb);
      var a := ca.position != NONE && p.weightA != 0;
      var b := cb.position != NONE && p.weightB != 0;
      && CreditInv(d.next)
      && d.next.mask == Mask(a, b)
      && (d.next.generation, d.next.mode) == (s.generation, s.mode)
      && (a && b ==> ExactRound(p.weightA, if s.mask == 3 then s.creditA else 0, d.next.creditA, d.leg))
      && (a && !b ==> d.leg == 0) && (b && !a ==> d.leg == 1) && (!a && !b ==> d.leg == NONE)
  {
    var a := ca.position != NONE && p.weightA != 0;
    var b := cb.position != NONE && p.weightB != 0;
    var s1 := Masked(s, Mask(a, b));
    hide Charge;
    if a || b {
      ChargeIsExact(p, s1, a, b);
    }
  }

  /** Started in a state that satisfies the invariant, no decision leaves it: not after a
      policy change, an outage, a disabled or invalid policy, or a change of mode. */
  lemma DecideKeepsCreditInv(p: Policy, s: State, ca: Candidate, cb: Candidate)
    requires CreditInv(s)
    ensures CreditInv(Decide(p, s, ca, cb).next)
  {
    if Steers(p) && p.mode == MODE_WRR {
      var s1 := if s.generation != p.generation || s.mode != p.mode then Fresh(p) else s;
      WrrIsExact(p, s1, ca, cb);
    }
  }

  /** The selection state of one socket, updated in place. */
  class Selector {
    var generation: U32
    var mode: U32
    var creditA: S32
    var creditB: S32
    var mask: U32
    var previous: S32

    ghost function View(): State
      reads this
    {
      State(generation, mode, creditA, creditB, mask, previous)
    }

    constructor ()
      ensures View() == INITIAL
    {
      generation, mode, creditA, creditB, mask, previous := 0, 0, 0, 0, 0, 0;
    }

    method Reset(p: Policy)
      modifies this
      ensures View() == Fresh(p)
    {
      generation, mode := p.generation, p.mode;
      creditA, creditB := 0, 0;
      mask := 0;
      previous := NONE;
    }

    method SelectRtt(p: Policy, ca: Candidate, cb: Candidate) returns (pick: S32)
      modifies this`previous
      ensures Decision(View(), pick) == DecideRtt(p, old(View()), ca, cb)
      // with no usable leg nothing changes
      ensures (ca.position == NONE || ca.rttUs == 0) && (cb.position == NONE || cb.rttUs == 0) ==>
        pick == NONE && View() == old(View())
    {
      var a, b := ca.position != NONE && ca.rttUs != 0, cb.position != NONE && cb.rttUs != 0;
      if !a && !b {
        return NONE;
      }
      pick := if !a then 1 else if !b then 0 else if cb.rttUs < ca.rttUs then 1 else 0;
      if p.rttDeltaUs != 0 && a && b && (previous == 0 || previous == 1) {
        var previousRtt := if previous == 0 then ca.rttUs else cb.rttUs;
        var chosenRtt := if pick == 0 then ca.rttUs else cb.rttUs;
        if WrapU32(previousRtt - chosenRtt) <= p.rttDeltaUs {
          pick := previous;
        }
      }
      previous := pick;
    }

    method SelectWrr(p: Policy, ca: Candidate, cb: Candidate) returns (pick: S32)
      modifies this`creditA, this`creditB, this`mask, this`previous
      ensures Decision(View(), pick) == DecideWrr(p, old(View()), ca, cb)
    {
      hide Plus, Minus, WrapU32;
      var a, b := ca.position != NONE && p.weightA != 0, cb.position != NONE && p.weightB != 0;
      var m := Mask(a, b);
      if m != mask {
        creditA, creditB, mask := 0, 0, m;
      }
      if m == 0 {
        return NONE;
      }
      if a { creditA := Plus(creditA, p.weightA); }
      if b { creditB := Plus(creditB, p.weightB); }
      pick := if !a then 1 else if !b then 0 else if creditB > creditA then 1 else 0;
      var total := WrapU32((if a then p.weightA else 0) + (if b then p.weightB else 0));
      if pick == 0 {
        creditA := Minus(creditA, total);
      } else {
        creditB := Minus(creditB, total);
      }
      previous := pick;
    }

    method Select(p: Policy, ca: Candidate, cb: Candidate) returns (position: int)
      modifies this
      ensures View() == Decide(p, old(View()), ca, cb).next
      ensures position == PositionOf(Decide(p, old(View()), ca, cb).leg, ca, cb)
    {
      if !PolicyValid(p) || p.enabled == 0 {
        return NONE;
      }
      if generation != p.generation || mode != p.mode {
        Reset(p);
      }
      var pick: S32;
      if p.mode == MODE_RTT {
        pick := SelectRtt(p, ca, cb);
      } else {
        pick := SelectWrr(p, ca, cb);
      }
      position := if pick == NONE then NONE else if pick == 0 then ca.position else cb.position;
    }
  }
}
