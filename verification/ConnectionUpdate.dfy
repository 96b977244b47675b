/** Bringing the maps of one connection to its target. */
module ConnectionUpdate {
  import opened Words
  import opened Events
  import opened Maps
  import opened Live
  import opened ControlPlane
  import opened Planning

  /** A live policy never runs ahead of its assignment, and at the same generation it is the
      one derived from it. */
  predicate NotAhead(live: Option<MapPolicy>, a: Assignment) {
    live.Some? ==>
      live.value.generation <= a.generation && (live.value.generation == a.generation ==> live.value == Derived(a))
  }

  /** Every path is an old one or a wanted one. */
  ghost predicate PathsFrom(before: Paths, now: Paths, wanted: Paths) {
    forall k :: k in now ==> SameAt(before, now, k) || (k in wanted && wanted[k] == now[k])
  }

  /** The policy is gone, as before, or the derived one. */
  predicate PolicyFrom(before: Option<MapPolicy>, now: Option<MapPolicy>, derived: MapPolicy) {
    now.None? || now == before || now == Some(derived)
  }

  lemma GatheredWants(events: set<PMEvent>, a: Assignment, ifs: Interfaces, seen: map<Endpoint, U32>,
                      epsA: seq<Endpoint>, epsB: seq<Endpoint>, key: ConnKey)
    requires Admitted(a, ifs) && Gathered(events, a, ifs, seen, epsA, epsB)
    ensures Desired(LivePolicyOf(a, epsA, epsB), key) == WantedPaths(events, a, key)
    ensures epsA == [] <==> EndpointsOn(events, a, 0) == {}
    ensures epsB == [] <==> EndpointsOn(events, a, 1) == {}
    ensures ForKey(WantedPaths(events, a, key), key)
  {
    var onA, onB := EndpointsOn(events, a, 0), EndpointsOn(events, a, 1);
    hide EndpointsOn, Conflict;
    KeysAgree(epsA, onA, key);
    KeysAgree(epsB, onB, key);
    if epsA != [] { assert epsA[0] in onA; }
    if epsB != [] { assert epsB[0] in onB; }
    if onA != {} { var p :| p in onA; assert p in epsA; }
    if onB != {} { var p :| p in onB; assert p in epsB; }
  }

  lemma KeysAgree(eps: seq<Endpoint>, on: set<Endpoint>, key: ConnKey)
    requires forall p :: p in eps <==> p in on
    ensures KeysOf(eps, key) == set ep | ep in on :: PathKey(key, ep.localId, ep.remoteId)
  {
  }

  lemma GatheredIsValid(events: set<PMEvent>, a: Assignment, ifs: Interfaces, seen: map<Endpoint, U32>,
                        epsA: seq<Endpoint>, epsB: seq<Endpoint>)
    requires Admitted(a, ifs) && Gathered(events, a, ifs, seen, epsA, epsB)
    ensures ConfigValid(LivePolicyOf(a, epsA, epsB)) <==> NamesTrimmed(a)
  {
    var all := epsA + epsB;
    forall ep | ep in all
      ensures ep.localId <= 255 && ep.remoteId <= 255
    {
      SmallIds(events, a, ep);
    }
    forall i, j | 0 <= i < j < |all|
      ensures all[i] != all[j]
    {
      if i < |epsA| <= j {
        assert epsA[i] in epsA && epsB[j - |epsA|] in epsB;
      } else if j < |epsA| {
        assert epsA[i] != epsA[j];
      } else {
        assert epsB[i - |epsA|] != epsB[j - |epsA|];
      }
    }
    hide Gathered, EndpointsOn;
  }

  lemma SmallIds(events: set<PMEvent>, a: Assignment, ep: Endpoint)
    requires ep in EndpointsOn(events, a, 0) || ep in EndpointsOn(events, a, 1)
    ensures ep.localId <= 255 && ep.remoteId <= 255
  {
  }

  /** Rewrites the paths of a connection whose policy is already right. */
  method UpdateInPlace(s: MapStore, key: ConnKey, want: Paths) returns (ok: bool)
    requires s.Valid() && ForKey(want, key)
    requires forall k :: k in want ==> want[k].generation != 0
    modifies s
    ensures s.Valid()
    ensures SameElsewhere(old(s.maps), s.maps, key) && s.maps.policies == old(s.maps).policies
    ensures PathsFrom(PathsOf(old(s.maps), key), PathsOf(s.maps, key), want)
    ensures if ok then s.faults == old(s.faults) && PathsOf(s.maps, key) == want else s.faults == old(s.faults) + 1
    ensures old(s.history) <= s.history
    ensures forall i :: |old(s.history)| <= i < |s.history| ==> Rewriting(old(s.maps), s.history[i], key, want)
    // nothing goes before everything wanted is in place
    ensures forall i :: |old(s.history)| <= i < |s.history| ==> WrittenFirst(old(s.maps), s.history[i], want)
    ensures PathsOf(old(s.maps), key) == want ==> s.history == old(s.history)
  {
    ghost var start := s.maps;
    var listed := s.ListPaths(key);
    if listed.None? {
      SameRewriting(start, key, want);
      return false;
    }
    var before := listed.value;
    ok := WriteDifferences(s, want, before);
    ghost var mid, written := s.maps, s.history;
    NothingPruned(s.maps);
    hide PreCommit, Pruned, Rewriting, WrittenFirst;
    WritingPhase(start, s.history, |old(s.history)|, key, want);
    PathsFromWrites(start, s.maps, s.maps, key, want, {});
    if !ok {
      RewritingIsLocal(start, s.maps, key, want);
      return;
    }
    var stale := before.Keys - want.Keys;
    ok := DeleteUntilRefused(s, stale);
    DeletingPhase(start, mid, s.history, |written|, key, want, stale);
    PathsFromWrites(start, mid, s.maps, key, want, stale);
    RewritingIsLocal(start, s.maps, key, want);
    if ok {
      ExactlyWanted(start, mid, s.maps, key, want, stale);
    }
    if before == want {
      assert stale == {};
    }
  }

  lemma SameRewriting(start: Content, key: ConnKey, want: Paths)
    ensures Rewriting(start, start, key, want)
  {
  }

  lemma RewritingIsLocal(start: Content, now: Content, key: ConnKey, want: Paths)
    requires Rewriting(start, now, key, want)
    ensures SameElsewhere(start, now, key) && now.policies == start.policies
    ensures PathsFrom(PathsOf(start, key), PathsOf(now, key), want)
  {
  }

  lemma WritingPhase(start: Content, history: seq<Content>, from: nat, key: ConnKey, want: Paths)
    requires forall i :: from <= i < |history| ==> PreCommit(start, history[i], want)
    requires ForKey(want, key)
    ensures forall i :: from <= i < |history| ==>
      Rewriting(start, history[i], key, want) && WrittenFirst(start, history[i], want)
  {
    forall i | from <= i < |history|
      ensures Rewriting(start, history[i], key, want) && WrittenFirst(start, history[i], want)
    {
      NothingPruned(history[i]);
      PathsFromWrites(start, history[i], history[i], key, want, {});
      OldStays(start, history[i], want);
      hide PreCommit, Pruned, Rewriting, WrittenFirst;
    }
  }

  lemma NothingPruned(m: Content)
    ensures Pruned(m, m, {})
  {
  }

  lemma DeletingPhase(start: Content, mid: Content, history: seq<Content>, from: nat, key: ConnKey, want: Paths,
                      stale: set<PathKey>)
    requires PreCommit(start, mid, want) && ForKey(want, key)
    requires stale !! want.Keys && forall k :: k in stale ==> k.conn == key
    requires forall k :: k in want ==> SameAt(want, mid.paths, k)
    requires forall i :: from <= i < |history| ==> Pruned(mid, history[i], stale)
    ensures forall i :: from <= i < |history| ==>
      Rewriting(start, history[i], key, want) && WrittenFirst(start, history[i], want)
  {
    hide PreCommit, Pruned, Rewriting, WrittenFirst;
    forall i | from <= i < |history|
      ensures Rewriting(start, history[i], key, want) && WrittenFirst(start, history[i], want)
    {
      PathsFromWrites(start, mid, history[i], key, want, stale);
      WantedStays(start, mid, history[i], want, stale);
    }
  }

  /** All written and all stale ones deleted: what is left is what is wanted. */
  lemma ExactlyWanted(start: Content, mid: Content, now: Content, key: ConnKey, want: Paths, stale: set<PathKey>)
    requires PreCommit(start, mid, want) && Pruned(mid, now, stale) && ForKey(want, key)
    requires stale == PathsOf(start, key).Keys - want.Keys
    requires forall k :: k in want ==> SameAt(want, mid.paths, k)
    requires forall k :: k in stale ==> k !in now.paths
    ensures PathsOf(now, key) == want
  {
    forall k: PathKey
      ensures k in PathsOf(now, key) <==> k in want
      ensures k in want ==> k in now.paths && now.paths[k] == want[k]
    {
      assert SameAt(mid.paths, now.paths, k) || (k in stale && k !in now.paths);
      assert SameAt(start.paths, mid.paths, k) || (k in want && SameAt(want, mid.paths, k));
      if k in want { assert SameAt(want, mid.paths, k); }
    }
  }

  lemma OldStays(start: Content, now: Content, want: Paths)
    requires PreCommit(start, now, want)
    ensures WrittenFirst(start, now, want)
  {
    forall k | k in start.paths
      ensures k in now.paths
    {
      assert SameAt(start.paths, now.paths, k) || (k in want && SameAt(want, now.paths, k));
    }
  }

  /** While paths are rewritten under a live policy: each is an old or a wanted one. */
  ghost predicate Rewriting(start: Content, now: Content, key: ConnKey, want: Paths) {
    && SameElsewhere(start, now, key) && now.policies == start.policies
    && PathsFrom(PathsOf(start, key), PathsOf(now, key), want)
  }

  /** Every old path is still there, or every wanted one is in place. */
  ghost predicate WrittenFirst(start: Content, now: Content, want: Paths) {
    || (forall k :: k in start.paths ==> k in now.paths)
    || (forall k :: k in want ==> SameAt(want, now.paths, k))
  }

  lemma WantedStays(start: Content, mid: Content, now: Content, want: Paths, stale: set<PathKey>)
    requires Pruned(mid, now, stale) && stale !! want.Keys
    requires forall k :: k in want ==> SameAt(want, mid.paths, k)
    ensures WrittenFirst(start, now, want)
  {
    forall k | k in want
      ensures SameAt(want, now.paths, k)
    {
      assert SameAt(mid.paths, now.paths, k) || (k in stale && k !in now.paths);
    }
  }

  /** Any path now is old or wanted, and only paths of `key` changed. */
  lemma PathsFromWrites(start: Content, mid: Content, now: Content, key: ConnKey, want: Paths, stale: set<PathKey>)
    requires PreCommit(start, mid, want) && Pruned(mid, now, stale) && ForKey(want, key)
    requires forall k :: k in stale ==> k.conn == key
    ensures Rewriting(start, now, key, want)
  {
    forall k: PathKey
      ensures k.conn != key ==> SameAt(start.paths, now.paths, k)
      ensures k in PathsOf(now, key) ==>
        SameAt(PathsOf(start, key), PathsOf(now, key), k) || (k in want && want[k] == PathsOf(now, key)[k])
    {
      assert SameAt(start.paths, mid.paths, k) || (k in want && SameAt(want, mid.paths, k));
      assert SameAt(mid.paths, now.paths, k) || (k in stale && k !in now.paths);
    }
  }

  /** The value Go reads for a key that may be missing. */
  function OrZero(m: Paths, k: PathKey): MapPath {
    if k in m then m[k] else MapPath(0, 0)
  }

  method WriteDifferences(s: MapStore, want: Paths, before: Paths) returns (ok: bool)
    requires s.Valid() && forall k :: k in want ==> want[k].generation != 0
    requires forall k :: k in want ==> SameAt(before, s.maps.paths, k)
    modifies s
    ensures s.Valid()
    ensures PreCommit(old(s.maps), s.maps, want)
    ensures if ok then s.faults == old(s.faults) && forall k :: k in want ==> SameAt(want, s.maps.paths, k)
            else s.faults == old(s.faults) + 1
    ensures old(s.history) <= s.history
    ensures forall i :: |old(s.history)| <= i < |s.history| ==> PreCommit(old(s.maps), s.history[i], want)
    ensures (forall k :: k in want ==> SameAt(want, before, k)) ==> s.history == old(s.history)
  {
    var todo := want.Keys;
    SameIsPreCommit(s.maps, want);
    while todo != {}
      invariant s.Valid() && todo <= want.Keys && s.faults == old(s.faults)
      invariant PreCommit(old(s.maps), s.maps, want)
      invariant forall k :: k in todo ==> SameAt(before, s.maps.paths, k)
      invariant forall k :: k in want && k !in todo ==> SameAt(want, s.maps.paths, k)
      invariant old(s.history) <= s.history
      invariant forall i :: |old(s.history)| <= i < |s.history| ==> PreCommit(old(s.maps), s.history[i], want)
      invariant (forall k :: k in want ==> SameAt(want, before, k)) ==> s.history == old(s.history)
      decreases |todo|
    {
      var k :| k in todo;
      todo := todo - {k};
      if OrZero(before, k) != want[k] {
        ghost var last := s.maps;
        ok := s.UpdatePath(k, want[k]);
        if !ok {
          return;
        }
        WrittenIsPreCommit(old(s.maps), last, s.maps, want, k);
      }
    }
    ok := true;
  }

  lemma WrittenIsPreCommit(start: Content, last: Content, now: Content, want: Paths, k: PathKey)
    requires PreCommit(start, last, want) && k in want && now == last.(paths := last.paths[k := want[k]])
    ensures PreCommit(start, now, want)
  {
    forall x: PathKey
      ensures SameAt(start.paths, now.paths, x) || (x in want && SameAt(want, now.paths, x))
    {
      assert SameAt(start.paths, last.paths, x) || (x in want && SameAt(want, last.paths, x));
    }
  }

  method DeleteUntilRefused(s: MapStore, stale: set<PathKey>) returns (ok: bool)
    requires s.Valid()
    modifies s
    ensures s.Valid()
    ensures Pruned(old(s.maps), s.maps, stale)
    ensures if ok then s.faults == old(s.faults) && forall k :: k in stale ==> k !in s.maps.paths
            else s.faults == old(s.faults) + 1
    ensures old(s.history) <= s.history
    ensures forall i :: |old(s.history)| <= i < |s.history| ==> Pruned(old(s.maps), s.history[i], stale)
    ensures stale == {} ==> s.history == old(s.history)
  {
    var todo := stale;
    while todo != {}
      invariant old(s.history) <= s.history && (todo == stale ==> s.history == old(s.history))
      invariant forall i :: |old(s.history)| <= i < |s.history| ==> Pruned(old(s.maps), s.history[i], stale)
      invariant s.Valid() && todo <= stale && s.faults == old(s.faults)
      invariant Pruned(old(s.maps), s.maps, stale)
      invariant forall k :: k in stale && k !in todo ==> k !in s.maps.paths
      decreases |todo|
    {
      var k :| k in todo;
      todo := todo - {k};
      var r := s.DeletePath(k);
      if r.DeleteFailed? {
        return false;
      }
    }
    ok := true;
  }

  /** What any attempt to update a connection leaves in the maps, however it ends and at
      any moment of it: nothing is bound under an interface name the live transaction
      refuses. */
  ghost predicate Effect(start: Content, now: Content, key: ConnKey, events: set<PMEvent>, a: Assignment) {
    && SameElsewhere(start, now, key)
    && PolicyFrom(SlotOf(start, key).policy, SlotOf(now, key).policy, Derived(a))
    && PathsFrom(PathsOf(start, key), PathsOf(now, key), WantedPaths(events, a, key))
    && (!NamesTrimmed(a) && SlotOf(start, key) == EMPTY_SLOT ==> SlotOf(now, key) == EMPTY_SLOT)
  }

  /** Every content from index `from` on is one an update may leave. */
  ghost predicate Effects(history: seq<Content>, from: nat, start: Content, key: ConnKey,
                          events: set<PMEvent>, a: Assignment) {
    forall i :: from <= i < |history| ==> Effect(start, history[i], key, events, a)
  }

  lemma ApplyEffect(start: Content, now: Content, key: ConnKey, events: set<PMEvent>, a: Assignment)
    requires NamesTrimmed(a) && ForKey(WantedPaths(events, a, key), key)
    requires var want := WantedPaths(events, a, key);
      PreCommit(start, now, want) || PostCommit(start, now, want, key, Derived(a))
    ensures Effect(start, now, key, events, a)
  {
    var want := WantedPaths(events, a, key);
    TraceIsLocal(start, now, want, key, Derived(a));
    hide WantedPaths;
    forall k | k in PathsOf(now, key)
      ensures SameAt(PathsOf(start, key), PathsOf(now, key), k) || (k in want && want[k] == PathsOf(now, key)[k])
    {
      assert SameAt(start.paths, now.paths, k) || (k in want && SameAt(want, now.paths, k));
    }
  }

  lemma RemovalEffect(start: Content, now: Content, key: ConnKey, events: set<PMEvent>, a: Assignment)
    requires now == start || Removing(start, now, key)
    ensures Effect(start, now, key, events, a)
  {
    if now != start { RemovingIsLocal(start, now, key); }
    hide WantedPaths;
    forall k | k in PathsOf(now, key)
      ensures k in PathsOf(start, key) && SameAt(PathsOf(start, key), PathsOf(now, key), k)
    {
      assert now == start || SameAt(start.paths, now.paths, k);
    }
  }

  lemma RewritingEffect(start: Content, now: Content, key: ConnKey, events: set<PMEvent>, a: Assignment)
    requires Rewriting(start, now, key, WantedPaths(events, a, key)) && key in start.policies
    ensures Effect(start, now, key, events, a)
  {
  }

  /** Removes the binding of a connection, as an update step. */
  method Unbind(s: MapStore, key: ConnKey, ghost events: set<PMEvent>, ghost a: Assignment) returns (ok: bool)
    requires s.Valid()
    modifies s
    ensures s.Valid() && Effect(old(s.maps), s.maps, key, events, a)
    ensures old(s.history) <= s.history && Effects(s.history, |old(s.history)|, old(s.maps), key, events, a)
    ensures if ok then s.faults == old(s.faults) && SlotOf(s.maps, key) == EMPTY_SLOT else s.faults > old(s.faults)
    ensures SlotOf(old(s.maps), key) == EMPTY_SLOT ==> s.history == old(s.history)
  {
    ghost var start := s.maps;
    ghost var left;
    ok, left := DeleteLive(key, s);
    RemovalEffect(start, s.maps, key, events, a);
    forall i | |old(s.history)| <= i < |s.history|
      ensures Effect(start, s.history[i], key, events, a)
    {
      RemovalEffect(start, s.history[i], key, events, a);
    }
  }

  /** Plans a connection and brings the maps to the plan. `ok` is the absence of an error:
      it means that the maps are at the target. With no store operation refused they are in
      any case, whether or not there is an error, and then there is one exactly if the
      observations cannot be planned. At the target nothing is written. The generation is
      never stale. */
  method ApplyConnection(s: MapStore, ifs: Interfaces, key: ConnKey, events: set<PMEvent>, a: Assignment)
    returns (ok: bool)
    requires s.Valid() && Admitted(a, ifs) && key.netns != 0 && key.reserved == 0
    requires NotAhead(SlotOf(s.maps, key).policy, a)
    requires !NamesTrimmed(a) ==> SlotOf(s.maps, key) == EMPTY_SLOT
    modifies s
    ensures s.Valid() && s.faults >= old(s.faults) && Effect(old(s.maps), s.maps, key, events, a)
    ensures old(s.history) <= s.history && Effects(s.history, |old(s.history)|, old(s.maps), key, events, a)
    ensures s.faults == old(s.faults) ==>
      SlotOf(s.maps, key) == SlotTarget(events, a, ifs, key) && (ok <==> Plannable(events, a, ifs))
    ensures ok ==> s.faults == old(s.faults)
    ensures SlotOf(old(s.maps), key) == SlotTarget(events, a, ifs, key) ==> s.history == old(s.history)
  {
    var p, seen := Plan(events, a, ifs);
    if p.None? {
      var gone := Unbind(s, key, events, a);
      return false;
    }
    var epsA, epsB := p.value.legA.endpoints, p.value.legB.endpoints;
    GatheredWants(events, a, ifs, seen, epsA, epsB, key);
    GatheredIsValid(events, a, ifs, seen, epsA, epsB);
    hide Gathered, EndpointsOn, Conflict, ConfigValid, Desired, WantedPaths, Effect, NamesTrimmed;
    if |epsA| == 0 || |epsB| == 0 {
      ok := Unbind(s, key, events, a);
      return;
    }
    assert Bindable(events, a, ifs) <==> NamesTrimmed(a);
    assert Plannable(events, a, ifs) <==> NamesTrimmed(a);
    ok := Bind(s, ifs, key, events, a, p.value);
  }

  /** The binding step of ApplyConnection: in place if the policy is already live. */
  method Bind(s: MapStore, ifs: Interfaces, key: ConnKey, events: set<PMEvent>, a: Assignment, p: LivePolicy)
    returns (ok: bool)
    requires s.Valid() && Admitted(a, ifs) && key.netns != 0 && key.reserved == 0
    requires NotAhead(SlotOf(s.maps, key).policy, a)
    requires !NamesTrimmed(a) ==> SlotOf(s.maps, key) == EMPTY_SLOT
    requires p == LivePolicyOf(a, p.legA.endpoints, p.legB.endpoints) && (ConfigValid(p) <==> NamesTrimmed(a))
    requires p.legA.endpoints != [] && p.legB.endpoints != []
    requires Desired(p, key) == WantedPaths(events, a, key) && ForKey(WantedPaths(events, a, key), key)
    modifies s
    ensures s.Valid() && s.faults >= old(s.faults) && Effect(old(s.maps), s.maps, key, events, a)
    ensures old(s.history) <= s.history && Effects(s.history, |old(s.history)|, old(s.maps), key, events, a)
    ensures ok ==> SlotOf(s.maps, key) == Slot(Some(Derived(a)), WantedPaths(events, a, key))
    ensures s.faults == old(s.faults) ==> (ok <==> NamesTrimmed(a))
    ensures ok ==> s.faults == old(s.faults)
    ensures !NamesTrimmed(a) || SlotOf(old(s.maps), key) == Slot(Some(Derived(a)), WantedPaths(events, a, key)) ==>
      s.history == old(s.history)
  {
    ghost var start := s.maps;
    var want := DesiredPaths(p, key);
    assert MapPolicyOf(p) == Derived(a);
    GenerationOfWanted(events, a, key);
    hide ConfigValid, Desired, WantedPaths, Admitted, NamesTrimmed, Effect;
    var have := s.LookupPolicy(key);
    RemovalEffect(start, start, key, events, a);
    if have.LookupFailed? {
      return false;
    }
    if have.Found? && have.value == MapPolicyOf(p) {
      ok := UpdateInPlace(s, key, want.value);
      forall m | Rewriting(start, m, key, want.value)
        ensures Effect(start, m, key, events, a)
      {
        RewritingEffect(start, m, key, events, a);
      }
      return;
    }
    var r, commit := ApplyLive(p, key, s);
    ok := r.Applied?;
    if !NamesTrimmed(a) {
      assert Refused(p, key, None, BadConfig);
      return;
    }
    forall i | |old(s.history)| <= i < |s.history|
      ensures Effect(start, s.history[i], key, events, a)
    {
      ApplyEffect(start, s.history[i], key, events, a);
    }
    ApplyEffect(start, s.maps, key, events, a);
  }

  lemma GenerationOfWanted(events: set<PMEvent>, a: Assignment, key: ConnKey)
    ensures forall k :: k in WantedPaths(events, a, key) ==> WantedPaths(events, a, key)[k].generation == a.generation
  {
  }
}
