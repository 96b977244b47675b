/** What a scheduler can see while the agent writes the two maps entry by entry. */
module Interleaving {
  import opened Words
  import opened Maps
  import opened Live

  /** The paths the scheduler would accept: those carrying the live policy's generation. */
  function Binding(m: Content, key: ConnKey): Paths {
    map k | k in m.paths && k.conn == key && key in m.policies
            && m.paths[k].generation == m.policies[key].generation :: m.paths[k]
  }

  predicate OfGeneration(desired: Paths, generation: U32) {
    forall k :: k in desired ==> desired[k].generation == generation
  }

  /** No path of the connection outside the plan carries the plan's generation already. */
  predicate NoForeign(m: Content, key: ConnKey, desired: Paths, generation: U32) {
    forall k :: k in m.paths && k.conn == key && k !in desired ==> m.paths[k].generation != generation
  }

  predicate Submap(a: Paths, b: Paths) {
    forall k :: k in a ==> k in b && a[k] == b[k]
  }

  lemma BindingBeforeCommit(start: Content, now: Content, desired: Paths, key: ConnKey, generation: U32)
    requires PreCommit(start, now, desired) && OfGeneration(desired, generation)
    requires key in start.policies ==> start.policies[key].generation < generation
    ensures Submap(Binding(now, key), Binding(start, key))
  {
    forall k | k in Binding(now, key)
      ensures k in Binding(start, key) && Binding(now, key)[k] == Binding(start, key)[k]
    {
      assert SameAt(start.paths, now.paths, k) || (k in desired && SameAt(desired, now.paths, k));
    }
  }

  /** After the commit the binding is the plan exactly when no other path carries its
      generation now, which holds if none did before the call. */
  lemma BindingAfterCommit(start: Content, now: Content, desired: Paths, key: ConnKey, policy: MapPolicy)
    requires PostCommit(start, now, desired, key, policy)
    requires OfGeneration(desired, policy.generation) && ForKey(desired, key)
    ensures Binding(now, key) == desired <==> NoForeign(now, key, desired, policy.generation)
    ensures NoForeign(start, key, desired, policy.generation) ==> Binding(now, key) == desired
  {
    forall k | k in desired
      ensures k in Binding(now, key) && Binding(now, key)[k] == desired[k]
    {
      assert SameAt(desired, now.paths, k);
    }
    if NoForeign(start, key, desired, policy.generation) {
      forall k | k in now.paths && k.conn == key && k !in desired
        ensures now.paths[k].generation != policy.generation
      {
        assert SameAt(start.paths, now.paths, k);
      }
    }
    if NoForeign(now, key, desired, policy.generation) {
      assert Binding(now, key) == desired;
    } else {
      var k :| k in now.paths && k.conn == key && k !in desired && now.paths[k].generation == policy.generation;
      assert k in Binding(now, key);
    }
  }

  lemma BindingWhileRemoving(start: Content, now: Content, key: ConnKey)
    requires Removing(start, now, key)
    ensures Binding(now, key) == map[]
  {
    assert key !in now.policies;
  }

  /** Every content from the commit on has exactly the plan as its binding. */
  ghost predicate SwitchedFrom(history: seq<Content>, commit: nat, key: ConnKey, desired: Paths) {
    forall i :: commit <= i < |history| ==> Binding(history[i], key) == desired
  }

  /** Atomic switch: through every single write of ApplyLive, including rollback and
      cleanup, a reader sees part of the old binding before the commit; and, once there is a
      commit, exactly the new one from then on if and only if no path outside the plan
      carried the new generation before the call. */
  lemma AtomicSwitch(history: seq<Content>, from: nat, commit: nat, start: Content, p: LivePolicy, key: ConnKey)
    requires ApplyTrace(history, from, commit, start, Desired(p, key), key, MapPolicyOf(p))
    requires key in start.policies ==> start.policies[key].generation < p.generation
    ensures forall i :: from <= i < commit ==> Submap(Binding(history[i], key), Binding(start, key))
    ensures commit < |history| ==>
      (SwitchedFrom(history, commit, key, Desired(p, key)) <==> NoForeign(start, key, Desired(p, key), p.generation))
  {
    forall i | from <= i < commit
      ensures Submap(Binding(history[i], key), Binding(start, key))
    {
      BindingBeforeCommit(start, history[i], Desired(p, key), key, p.generation);
    }
    forall i | commit <= i < |history|
      ensures NoForeign(start, key, Desired(p, key), p.generation) ==> Binding(history[i], key) == Desired(p, key)
    {
      BindingAfterCommit(start, history[i], Desired(p, key), key, MapPolicyOf(p));
    }
    if commit < |history| {
      AtTheCommit(start, history[commit], Desired(p, key), key, MapPolicyOf(p));
    }
  }

  /** At the commit the test before the call and the test on the content agree. */
  lemma AtTheCommit(start: Content, now: Content, desired: Paths, key: ConnKey, policy: MapPolicy)
    requires PostCommit(start, now, desired, key, policy)
    requires OfGeneration(desired, policy.generation) && ForKey(desired, key)
    requires forall k: PathKey :: k !in desired ==> SameAt(start.paths, now.paths, k)
    ensures Binding(now, key) == desired <==> NoForeign(start, key, desired, policy.generation)
  {
    BindingAfterCommit(start, now, desired, key, policy);
    if k :| k in start.paths && k.conn == key && k !in desired && start.paths[k].generation == policy.generation {
      assert SameAt(start.paths, now.paths, k);
    }
  }

  /** The plan of each generation. */
  type Plans = map<U32, Paths>

  /** Every path entry of the connection is an entry of its own generation's plan. */
  ghost predicate Ledger(m: Content, key: ConnKey, plans: Plans) {
    forall k :: k in m.paths && k.conn == key ==>
      var g := m.paths[k].generation;
      g in plans && k in plans[g] && plans[g][k] == m.paths[k]
  }

  lemma LedgerKept(start: Content, now: Content, key: ConnKey, desired: Paths, plans: Plans, policy: MapPolicy)
    requires Ledger(start, key, plans)
    requires || PreCommit(start, now, desired) || PostCommit(start, now, desired, key, policy)
             || Removing(start, now, key)
    requires forall k :: k in desired ==>
      desired[k].generation in plans && k in plans[desired[k].generation] && plans[desired[k].generation][k] == desired[k]
    ensures Ledger(now, key, plans)
  {
    forall k | k in now.paths && k.conn == key
      ensures var g := now.paths[k].generation; g in plans && k in plans[g] && plans[g][k] == now.paths[k]
    {
      assert SameAt(start.paths, now.paths, k) || (k in desired && SameAt(desired, now.paths, k));
    }
  }

  /** Another connection's entries play no part. */
  lemma LedgerElsewhere(start: Content, now: Content, key: ConnKey, other: ConnKey, plans: Plans)
    requires Ledger(start, key, plans) && SameElsewhere(start, now, other) && other != key
    ensures Ledger(now, key, plans)
  {
    forall k | k in now.paths && k.conn == key
      ensures var g := now.paths[k].generation; g in plans && k in plans[g] && plans[g][k] == now.paths[k]
    {
      assert SameAt(start.paths, now.paths, k);
    }
  }

  datatype Write = Apply(key: ConnKey, p: LivePolicy) | Remove(key: ConnKey)

  /** One plan per generation of the connection. */
  ghost predicate Planned(writes: seq<Write>, key: ConnKey, plans: Plans) {
    forall i :: 0 <= i < |writes| && writes[i].Apply? && writes[i].key == key ==>
      writes[i].p.generation in plans && plans[writes[i].p.generation] == Desired(writes[i].p, key)
  }

  /** Any sequence of applies and removals of any connections, with any store operation
      refused: the ledger of each connection holds in every content a reader could have
      seen. */
  method Writer(writes: seq<Write>, s: MapStore, ghost key: ConnKey, ghost plans: Plans)
    requires s.Valid() && Planned(writes, key, plans)
    requires forall i :: 0 <= i < |s.history| ==> Ledger(s.history[i], key, plans)
    modifies s
    ensures s.Valid() && old(s.history) <= s.history
    ensures forall i :: 0 <= i < |s.history| ==> Ledger(s.history[i], key, plans)
  {
    for n := 0 to |writes|
      invariant s.Valid() && old(s.history) <= s.history
      invariant forall i :: 0 <= i < |s.history| ==> Ledger(s.history[i], key, plans)
    {
      ghost var start, seen := s.maps, |s.history|;
      match writes[n] {
        case Apply(target, p) =>
          var r, commit := ApplyLive(p, target, s);
          forall i | seen <= i < |s.history|
            ensures Ledger(s.history[i], key, plans)
          {
            if target == key {
              LedgerKept(start, s.history[i], key, Desired(p, key), plans, MapPolicyOf(p));
            } else {
              TraceIsLocal(start, s.history[i], Desired(p, target), target, MapPolicyOf(p));
              LedgerElsewhere(start, s.history[i], key, target, plans);
            }
          }
        case Remove(target) =>
          var ok, left := DeleteLive(target, s);
          forall i | seen <= i < |s.history|
            ensures Ledger(s.history[i], key, plans)
          {
            if target == key {
              LedgerKept(start, s.history[i], key, map[], plans, MapPolicy(0, 0, 0, 0, 0, 0));
            } else {
              RemovingIsLocal(start, s.history[i], target);
              LedgerElsewhere(start, s.history[i], key, target, plans);
            }
          }
      }
    }
  }

  /** A scheduler pass against a history of contents: the policy is read at one moment and
      each path later, at any moments at all. */
  datatype Pass = Pass(snapshot: nat, times: seq<nat>)

  ghost predicate PassOver(pass: Pass, history: seq<Content>, key: ConnKey) {
    && pass.snapshot < |history| && key in history[pass.snapshot].policies
    && forall i :: 0 <= i < |pass.times| ==> pass.snapshot <= pass.times[i] < |history|
  }

  /** The i-th path read of the pass: what the path map holds at that moment. */
  function Read(pass: Pass, history: seq<Content>, i: nat, k: PathKey): Option<MapPath>
    requires i < |pass.times| && pass.times[i] < |history|
  {
    var paths := history[pass.times[i]].paths;
    if k in paths then Some(paths[k]) else None
  }

  /** No mixed plans: whatever the pass reads under the generation it snapshotted is the
      entry of that generation's plan. */
  lemma NoMixedPlans(history: seq<Content>, key: ConnKey, plans: Plans, pass: Pass, i: nat, k: PathKey)
    requires forall j :: 0 <= j < |history| ==> Ledger(history[j], key, plans)
    requires PassOver(pass, history, key) && i < |pass.times| && k.conn == key
    ensures var g := history[pass.snapshot].policies[key].generation;
      var read := Read(pass, history, i, k);
      read.Some? && read.value.generation == g ==> g in plans && k in plans[g] && read.value == plans[g][k]
  {
    assert Ledger(history[pass.times[i]], key, plans);
  }
}
