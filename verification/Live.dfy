/** The two-map transaction: stage generation-bound paths, commit the policy, clean up.

    The maps have no joint transaction, so every contract here describes not only the
    final content but each content a reader could see on the way. */
module Live {
  import opened Words
  import opened Maps

  datatype Endpoint = Endpoint(localId: U32, remoteId: U32)

  datatype PlanLeg = PlanLeg(ifName: string, weight: U32, endpoints: seq<Endpoint>)

  datatype LivePolicy = LivePolicy(
    enabled: bool, generation: U32, mode: string, rttDeltaUs: U32, legA: PlanLeg, legB: PlanLeg)

  const LOAD_BALANCE := "load-balance"
  const LOWEST_RTT := "lowest-rtt"

  function MapPolicyOf(p: LivePolicy): MapPolicy {
    MapPolicy(p.generation, if p.enabled then 1 else 0, if p.mode == LOWEST_RTT then 2 else 1,
              p.legA.weight, p.legB.weight, p.rttDeltaUs)
  }

  predicate IsSpace(c: char) {
    || c in {' ', '\t', '\n', '\r', '\U{0B}', '\U{0C}', '\U{85}', '\U{A0}', '\U{1680}'}
    || '\U{2000}' <= c <= '\U{200A}'
    || c in {'\U{2028}', '\U{2029}', '\U{202F}', '\U{205F}', '\U{3000}'}
  }

  /** Nonempty and without surrounding white space. */
  predicate TrimmedName(s: string) {
    s != "" && !IsSpace(s[0]) && !IsSpace(s[|s|-1])
  }

  predicate NoDuplicates(s: seq<Endpoint>) {
    forall i, j :: 0 <= i < j < |s| ==> s[i] != s[j]
  }

  predicate ConfigValid(p: LivePolicy) {
    && p.generation != 0
    && (p.mode == LOAD_BALANCE || p.mode == LOWEST_RTT)
    && TrimmedName(p.legA.ifName) && p.legA.weight <= 100
    && TrimmedName(p.legB.ifName) && p.legB.weight <= 100
    && p.legA.ifName != p.legB.ifName
    && p.legA.weight + p.legB.weight == 100
    && (forall ep :: ep in p.legA.endpoints + p.legB.endpoints ==> ep.localId <= 255 && ep.remoteId <= 255)
    && NoDuplicates(p.legA.endpoints + p.legB.endpoints)
  }

  /** White space as Unicode has it, by code point. */
  lemma SpaceIsWhiteSpace(c: char)
    ensures IsSpace(c) <==>
      var n := c as int;
      9 <= n <= 13 || n in {0x20, 0x85, 0xa0, 0x1680, 0x2028, 0x2029, 0x202f, 0x205f, 0x3000} || 0x2000 <= n <= 0x200a
  {
  }

  /** Everything a policy can be refused for. */
  lemma ConfigRefusedExactly(p: LivePolicy)
    ensures !ConfigValid(p) <==>
      || p.generation == 0 || p.mode !in {"load-balance", "lowest-rtt"}
      || p.legA.weight + p.legB.weight != 100
      || p.legA.ifName == p.legB.ifName
      || (exists l | l in {p.legA, p.legB} :: l.ifName == "" || IsSpace(l.ifName[0]) || IsSpace(l.ifName[|l.ifName|-1]))
      || (exists ep :: (ep in p.legA.endpoints || ep in p.legB.endpoints) && (ep.localId > 255 || ep.remoteId > 255))
      || (exists i, j :: 0 <= i < j < |p.legA.endpoints| && p.legA.endpoints[i] == p.legA.endpoints[j])
      || (exists i, j :: 0 <= i < j < |p.legB.endpoints| && p.legB.endpoints[i] == p.legB.endpoints[j])
      || (exists ep :: ep in p.legA.endpoints && ep in p.legB.endpoints)
  {
    DuplicatesExactly(p.legA.endpoints, p.legB.endpoints);
    var all := p.legA.endpoints + p.legB.endpoints;
    assert forall ep :: ep in all <==> ep in p.legA.endpoints || ep in p.legB.endpoints;
    hide NoDuplicates, IsSpace;
  }

  lemma DuplicatesExactly(a: seq<Endpoint>, b: seq<Endpoint>)
    ensures !NoDuplicates(a + b) <==>
      || (exists i, j :: 0 <= i < j < |a| && a[i] == a[j])
      || (exists i, j :: 0 <= i < j < |b| && b[i] == b[j])
      || (exists ep :: ep in a && ep in b)
  {
    var all := a + b;
    if i, j :| 0 <= i < j < |a| && a[i] == a[j] {
      assert all[i] == all[j];
    }
    if i, j :| 0 <= i < j < |b| && b[i] == b[j] {
      assert all[|a| + i] == all[|a| + j];
    }
    if ep :| ep in a && ep in b {
      var i :| 0 <= i < |a| && a[i] == ep;
      var j :| 0 <= j < |b| && b[j] == ep;
      assert all[i] == all[|a| + j];
    }
    if i, j :| 0 <= i < j < |all| && all[i] == all[j] {
      if j < |a| {
        assert a[i] == a[j];
      } else if i >= |a| {
        assert b[i - |a|] == b[j - |a|];
      } else {
        assert a[i] in a && b[j - |a|] in b;
      }
    }
  }

  function KeysOf(eps: seq<Endpoint>, key: ConnKey): set<PathKey> {
    set ep | ep in eps :: PathKey(key, ep.localId, ep.remoteId)
  }

  /** The path entries a policy asks for: every endpoint of leg A and B, at its generation. */
  function Desired(p: LivePolicy, key: ConnKey): Paths {
    var a, b := KeysOf(p.legA.endpoints, key), KeysOf(p.legB.endpoints, key);
    map k | k in a + b :: MapPath(p.generation, if k in b then 1 else 0)
  }

  /** The desired paths are the IDs of the endpoints of both legs, at the policy's generation;
      leg B's are marked 1, the others 0. */
  lemma DesiredOnFields(p: LivePolicy, key: ConnKey, k: PathKey)
    ensures k in Desired(p, key) <==> k.conn == key && exists ep ::
      (ep in p.legA.endpoints || ep in p.legB.endpoints) && ep.localId == k.localId && ep.remoteId == k.remoteId
    ensures k in Desired(p, key) ==>
      var access := if Endpoint(k.localId, k.remoteId) in p.legB.endpoints then 1 else 0;
      Desired(p, key)[k] == MapPath(p.generation, access)
  {
    if ep :| (ep in p.legA.endpoints || ep in p.legB.endpoints) && ep.localId == k.localId && ep.remoteId == k.remoteId {
      assert ep == Endpoint(k.localId, k.remoteId);
    }
    if k in KeysOf(p.legA.endpoints, key) || k in KeysOf(p.legB.endpoints, key) {
      var ep := Endpoint(k.localId, k.remoteId);
      assert ep in p.legA.endpoints || ep in p.legB.endpoints;
    }
  }

  function Constant(keys: set<PathKey>, v: MapPath): Paths {
    map k | k in keys :: v
  }

  method AddLeg(base: Paths, eps: seq<Endpoint>, key: ConnKey, v: MapPath) returns (result: Paths)
    ensures result == base + Constant(KeysOf(eps, key), v)
  {
    result := base;
    for i := 0 to |eps|
      invariant result == base + Constant(KeysOf(eps[..i], key), v)
    {
      var k := PathKey(key, eps[i].localId, eps[i].remoteId);
      assert eps[..i+1] == eps[..i] + [eps[i]];
      assert KeysOf(eps[..i+1], key) == KeysOf(eps[..i], key) + {k};
      result := result[k := v];
    }
    assert eps[..|eps|] == eps;
  }

  method DesiredPaths(p: LivePolicy, key: ConnKey) returns (result: Option<Paths>)
    ensures result.None? <==> p.legA.endpoints == [] || p.legB.endpoints == []
    ensures result.Some? ==> result.value == Desired(p, key)
  {
    if |p.legA.endpoints| == 0 || |p.legB.endpoints| == 0 {
      return None;
    }
    var paths := AddLeg(map[], p.legA.endpoints, key, MapPath(p.generation, 0));
    paths := AddLeg(paths, p.legB.endpoints, key, MapPath(p.generation, 1));
    result := Some(paths);
  }

  /** Before the commit: the policies are untouched and each path is old or as desired. */
  ghost predicate PreCommit(start: Content, now: Content, desired: Paths) {
    && now.policies == start.policies
    && forall k: PathKey :: SameAt(start.paths, now.paths, k) || (k in desired && SameAt(desired, now.paths, k))
  }

  /** From the commit on: the policy is the new one, every desired path is in place, and
      any other path of the connection is old or gone. */
  ghost predicate PostCommit(start: Content, now: Content, desired: Paths, key: ConnKey, policy: MapPolicy) {
    && now.policies == start.policies[key := policy]
    && forall k: PathKey ::
         if k in desired then SameAt(desired, now.paths, k)
         else SameAt(start.paths, now.paths, k) || (k.conn == key && k !in now.paths)
  }

  /** While a binding is being removed: its policy is gone, its paths are old or gone. */
  ghost predicate Removing(start: Content, now: Content, key: ConnKey) {
    && now.policies == start.policies - {key}
    && forall k: PathKey :: SameAt(start.paths, now.paths, k) || (k.conn == key && k !in now.paths)
  }

  /** The contents from index `from` on are `pre` up to `commit` and `post` afterwards; the
      commit itself leaves every path outside the plan as it was at the start. */
  ghost predicate ApplyTrace(history: seq<Content>, from: nat, commit: nat, start: Content,
                             desired: Paths, key: ConnKey, policy: MapPolicy) {
    && from <= commit <= |history|
    && (forall i :: from <= i < commit ==> PreCommit(start, history[i], desired))
    && (forall i :: commit <= i < |history| ==> PostCommit(start, history[i], desired, key, policy))
    && (commit < |history| ==>
          forall k: PathKey :: k !in desired ==> SameAt(start.paths, history[commit].paths, k))
  }

  /** Writes the desired paths one by one, in any order, stopping at the first refusal. */
  method Stage(s: MapStore, desired: Paths) returns (ok: bool, staged: seq<PathKey>)
    requires s.Valid()
    modifies s
    ensures s.Valid()
    ensures old(s.history) <= s.history
    ensures forall i :: |old(s.history)| <= i < |s.history| ==> PreCommit(old(s.maps), s.history[i], desired)
    ensures PreCommit(old(s.maps), s.maps, desired)
    ensures forall k :: k in staged ==> k in desired
    ensures forall k: PathKey :: k !in staged ==> SameAt(old(s.maps).paths, s.maps.paths, k)
    ensures ok ==> s.faults == old(s.faults) && forall k :: k in desired ==> SameAt(desired, s.maps.paths, k)
    ensures !ok ==> s.faults == old(s.faults) + 1
  {
    staged := [];
    var todo := desired.Keys;
    while todo != {}
      invariant s.Valid() && todo <= desired.Keys
      invariant s.faults == old(s.faults) && old(s.history) <= s.history
      invariant forall i :: |old(s.history)| <= i < |s.history| ==> PreCommit(old(s.maps), s.history[i], desired)
      invariant PreCommit(old(s.maps), s.maps, desired)
      invariant forall k :: k in staged ==> k in desired
      invariant forall k: PathKey :: k !in staged ==> SameAt(old(s.maps).paths, s.maps.paths, k)
      invariant forall k :: k in desired && k !in todo ==> SameAt(desired, s.maps.paths, k)
      decreases |todo|
    {
      var k :| k in todo;
      todo := todo - {k};
      ok := s.UpdatePath(k, desired[k]);
      if !ok {
        return;
      }
      staged := staged + [k];
    }
    ok := true;
  }

  /** Puts one path back as it was in `before`. */
  method Restore(s: MapStore, k: PathKey, before: Paths) returns (ok: bool)
    requires s.Valid()
    modifies s
    ensures s.Valid()
    ensures s.history == old(s.history) || s.history == old(s.history) + [s.maps]
    ensures s.faults == old(s.faults) + if ok then 0 else 1
    ensures s.maps.policies == old(s.maps).policies
    ensures forall x: PathKey :: x != k ==> SameAt(old(s.maps).paths, s.maps.paths, x)
    ensures if ok then SameAt(before, s.maps.paths, k) else s.maps == old(s.maps)
  {
    if k in before {
      ok := s.UpdatePath(k, before[k]);
    } else {
      var r := s.DeletePath(k);
      ok := !r.DeleteFailed?;
    }
  }

  /** The paths differ at most at `left`. */
  ghost predicate SameBut(start: Content, now: Content, left: set<PathKey>) {
    forall k: PathKey :: k !in left ==> SameAt(start.paths, now.paths, k)
  }

  /** Restores the staged paths to what they were; counts the undo writes refused. Each of
      these leaves at most one path, in `left`, as it was. */
  method Rollback(s: MapStore, staged: seq<PathKey>, before: Paths,
                  ghost start: Content, ghost desired: Paths, ghost key: ConnKey)
    returns (failures: nat, ghost left: set<PathKey>)
    requires s.Valid() && before == PathsOf(start, key)
    requires PreCommit(start, s.maps, desired)
    requires forall k :: k in staged ==> k.conn == key
    requires forall k: PathKey :: k !in staged ==> SameAt(start.paths, s.maps.paths, k)
    modifies s
    ensures s.Valid()
    ensures old(s.history) <= s.history
    ensures forall i :: |old(s.history)| <= i < |s.history| ==> PreCommit(start, s.history[i], desired)
    ensures PreCommit(start, s.maps, desired)
    ensures s.faults == old(s.faults) + failures
    ensures |left| <= failures && SameBut(start, s.maps, left)
    ensures failures == 0 ==> s.maps == start
  {
    failures, left := 0, {};
    ghost var pending := set k | k in staged;
    for n := 0 to |staged|
      invariant forall k :: k in pending ==> k in staged[n..]
      invariant s.Valid() && s.faults == old(s.faults) + failures && old(s.history) <= s.history
      invariant forall i :: |old(s.history)| <= i < |s.history| ==> PreCommit(start, s.history[i], desired)
      invariant PreCommit(start, s.maps, desired)
      invariant |left| <= failures && SameBut(start, s.maps, pending + left)
    {
      ghost var last := s.maps;
      var ok := Restore(s, staged[n], before);
      if !ok { failures := failures + 1; }
      RestoredIsPreCommit(start, last, s.maps, desired, staged[n], ok);
      hide PreCommit, SameAt, SameBut;
      if ok {
        RestoredIsSame(start, last, s.maps, pending + left, staged[n]);
        MoreLeft(start, s.maps, pending + left - {staged[n]}, (pending - {staged[n]}) + left);
      } else {
        MoreLeft(start, s.maps, pending + left, (pending - {staged[n]}) + (left + {staged[n]}));
        left := left + {staged[n]};
      }
      pending := pending - {staged[n]};
    }
    assert pending == {} && pending + left == left;
    if failures == 0 {
      assert left == {};
      SamePaths(start, s.maps);
    }
  }

  lemma MoreLeft(start: Content, now: Content, left: set<PathKey>, all: set<PathKey>)
    requires SameBut(start, now, left) && left <= all
    ensures SameBut(start, now, all)
  {
    hide SameAt;
  }

  lemma RestoredIsPreCommit(start: Content, last: Content, now: Content, desired: Paths, k: PathKey, ok: bool)
    requires PreCommit(start, last, desired) && now.policies == last.policies
    requires forall x: PathKey :: x != k ==> SameAt(last.paths, now.paths, x)
    requires if ok then SameAt(start.paths, now.paths, k) else now == last
    ensures PreCommit(start, now, desired)
  {
    forall x: PathKey
      ensures SameAt(start.paths, now.paths, x) || (x in desired && SameAt(desired, now.paths, x))
    {
      if x != k {
        assert SameAt(last.paths, now.paths, x);
        assert SameAt(start.paths, last.paths, x) || (x in desired && SameAt(desired, last.paths, x));
      }
    }
  }

  lemma RestoredIsSame(start: Content, last: Content, now: Content, pending: set<PathKey>, k: PathKey)
    requires SameBut(start, last, pending)
    requires forall x: PathKey :: x != k ==> SameAt(last.paths, now.paths, x)
    requires SameAt(start.paths, now.paths, k)
    ensures SameBut(start, now, pending - {k})
  {
    forall x: PathKey | x !in pending - {k}
      ensures SameAt(start.paths, now.paths, x)
    {
      if x != k {
        assert SameAt(start.paths, last.paths, x) && SameAt(last.paths, now.paths, x);
      }
    }
  }

  lemma SamePaths(m: Content, n: Content)
    requires m.policies == n.policies
    requires forall k: PathKey :: SameAt(m.paths, n.paths, k)
    ensures m == n
  {
    assert forall k: PathKey :: k in m.paths <==> k in n.paths by {
      forall k: PathKey ensures k in m.paths <==> k in n.paths { assert SameAt(m.paths, n.paths, k); }
    }
    assert forall k :: k in m.paths ==> m.paths[k] == n.paths[k] by {
      forall k | k in m.paths ensures m.paths[k] == n.paths[k] { assert SameAt(m.paths, n.paths, k); }
    }
    assert m.paths == n.paths;
  }

  /** Deletes the paths in `stale`; goes on after a refusal, so that no more paths are `left`
      than deletions were refused. */
  method DeletePaths(s: MapStore, stale: set<PathKey>) returns (failures: nat, ghost left: set<PathKey>)
    requires s.Valid()
    modifies s
    ensures s.Valid()
    ensures old(s.history) <= s.history
    ensures forall i :: |old(s.history)| <= i < |s.history| ==> Pruned(old(s.maps), s.history[i], stale)
    ensures Pruned(old(s.maps), s.maps, stale)
    ensures s.faults == old(s.faults) + failures
    ensures left <= stale && |left| == failures && forall k :: k in stale && k !in left ==> k !in s.maps.paths
    ensures stale == {} ==> s.history == old(s.history)
  {
    failures, left := 0, {};
    var todo := stale;
    while todo != {}
      invariant todo == stale ==> s.history == old(s.history)
      invariant s.Valid() && todo <= stale && s.faults == old(s.faults) + failures && old(s.history) <= s.history
      invariant forall i :: |old(s.history)| <= i < |s.history| ==> Pruned(old(s.maps), s.history[i], stale)
      invariant Pruned(old(s.maps), s.maps, stale)
      invariant left <= stale && left !! todo && |left| == failures
      invariant forall k :: k in stale && k !in todo && k !in left ==> k !in s.maps.paths
      decreases |todo|
    {
      var k :| k in todo;
      todo := todo - {k};
      ghost var last := s.maps;
      var r := s.DeletePath(k);
      PrunedStep(old(s.maps), last, s.maps, stale, k);
      hide Pruned;
      if r.DeleteFailed? { failures, left := failures + 1, left + {k}; }
    }
  }

  /** The policies are untouched and some paths among `stale` are gone. */
  ghost predicate Pruned(start: Content, now: Content, stale: set<PathKey>) {
    && now.policies == start.policies
    && forall k: PathKey :: SameAt(start.paths, now.paths, k) || (k in stale && k !in now.paths)
  }

  lemma PrunedStep(start: Content, last: Content, now: Content, stale: set<PathKey>, k: PathKey)
    requires Pruned(start, last, stale) && k in stale
    requires now == last || now == last.(paths := last.paths - {k})
    ensures Pruned(start, now, stale)
  {
    forall x: PathKey
      ensures SameAt(start.paths, now.paths, x) || (x in stale && x !in now.paths)
    {
      assert SameAt(start.paths, last.paths, x) || (x in stale && x !in last.paths);
    }
  }

  ghost predicate ForKey(paths: Paths, key: ConnKey) {
    forall k :: k in paths ==> k.conn == key
  }

  lemma CommitIsPostCommit(start: Content, staged: Content, desired: Paths, key: ConnKey, policy: MapPolicy)
    requires PreCommit(start, staged, desired)
    requires forall k :: k in desired ==> SameAt(desired, staged.paths, k)
    ensures PostCommit(start, staged.(policies := staged.policies[key := policy]), desired, key, policy)
  {
  }

  lemma PruningIsPostCommit(start: Content, committed: Content, now: Content, desired: Paths, stale: set<PathKey>,
                            key: ConnKey, policy: MapPolicy)
    requires PostCommit(start, committed, desired, key, policy) && Pruned(committed, now, stale)
    requires stale !! desired.Keys && forall k :: k in stale ==> k.conn == key
    ensures PostCommit(start, now, desired, key, policy)
  {
    forall k: PathKey
      ensures if k in desired then SameAt(desired, now.paths, k)
              else SameAt(start.paths, now.paths, k) || (k.conn == key && k !in now.paths)
    {
      assert SameAt(committed.paths, now.paths, k) || (k in stale && k !in now.paths);
      if k in desired {
        assert SameAt(desired, committed.paths, k);
      } else {
        assert SameAt(start.paths, committed.paths, k) || (k.conn == key && k !in committed.paths);
      }
    }
  }

  /** Once nothing stale is left, the connection holds exactly the plan. */
  lemma CleanSlot(start: Content, now: Content, desired: Paths, key: ConnKey, policy: MapPolicy)
    requires PostCommit(start, now, desired, key, policy) && ForKey(desired, key)
    requires forall k :: k in PathsOf(start, key) && k !in desired ==> k !in now.paths
    ensures SlotOf(now, key) == Slot(Some(policy), desired)
  {
    forall k: PathKey
      ensures k in PathsOf(now, key) <==> k in desired
      ensures k in desired ==> k in now.paths && now.paths[k] == desired[k]
    {
      if k in desired {
        assert SameAt(desired, now.paths, k);
      }
    }
    assert PathsOf(now, key) == desired;
  }

  lemma TraceIsLocal(start: Content, now: Content, desired: Paths, key: ConnKey, policy: MapPolicy)
    requires ForKey(desired, key)
    requires PreCommit(start, now, desired) || PostCommit(start, now, desired, key, policy)
    ensures SameElsewhere(start, now, key)
  {
    forall k: PathKey | k.conn != key
      ensures SameAt(start.paths, now.paths, k)
    {
    }
    assert start.policies - {key} == now.policies - {key};
  }

  datatype Rejection = BadConfig | BadKey | NoEndpoints | StaleGeneration

  /** Applied; refused without a write; a read failed; aborted before the commit and rolled
      back; or committed with stale paths left over. */
  datatype ApplyResult = Applied | Rejected(why: Rejection) | ReadFailed | Aborted | CleanupFailed

  predicate Refused(p: LivePolicy, key: ConnKey, live: Option<MapPolicy>, why: Rejection) {
    match why
    case BadConfig => !ConfigValid(p)
    case BadKey => key.netns == 0 || key.reserved != 0
    case NoEndpoints => p.legA.endpoints == [] || p.legB.endpoints == []
    case StaleGeneration => live.Some? && p.generation <= live.value.generation
  }

  /** What may be applied: a valid policy with endpoints on both legs, to a connection of a
      namespace, and strictly newer than the live policy, if there is one. */
  predicate Acceptable(m: Content, p: LivePolicy, key: ConnKey) {
    && ConfigValid(p) && |p.legA.endpoints| > 0 && |p.legB.endpoints| > 0
    && key.netns > 0 && key.reserved == 0
    && (key in m.policies ==> p.generation > m.policies[key].generation)
  }

  /** Applies a policy to one connection. `commit` marks the write of the policy within the
      contents that readers could see. */
  method ApplyLive(p: LivePolicy, key: ConnKey, s: MapStore) returns (r: ApplyResult, ghost commit: nat)
    requires s.Valid()
    modifies s
    ensures s.Valid() && old(s.history) <= s.history
    ensures ApplyTrace(s.history, |old(s.history)|, commit, old(s.maps), Desired(p, key), key, MapPolicyOf(p))
    ensures SameElsewhere(old(s.maps), s.maps, key)
    // why nothing was written
    ensures r.Rejected? ==> Refused(p, key, SlotOf(old(s.maps), key).policy, r.why)
    ensures r.Rejected? || r.ReadFailed? ==> s.history == old(s.history) && s.maps == old(s.maps)
    ensures (exists why :: Refused(p, key, SlotOf(old(s.maps), key).policy, why)) ==> r.Rejected? || r.ReadFailed?
    ensures r.Rejected? ==> !Acceptable(old(s.maps), p, key)
    ensures s.history != old(s.history) ==> Acceptable(old(s.maps), p, key)
    // before the commit: rolled back exactly, unless an undo write was refused as well
    ensures r.Aborted? ==> commit == |s.history| && PreCommit(old(s.maps), s.maps, Desired(p, key))
    ensures r.Aborted? && s.faults == old(s.faults) + 1 ==> s.maps == old(s.maps)
    ensures r.Aborted? ==>
      exists left :: |left| < s.faults - old(s.faults) && SameBut(old(s.maps), s.maps, left)
    // after the commit, each refused deletion leaves at most one path behind
    ensures r.CleanupFailed? ==>
      exists left :: |left| <= s.faults - old(s.faults) && CleanBut(s.maps, key, Desired(p, key), left)
    ensures r.Applied? || r.CleanupFailed? ==>
      commit < |s.history| && PostCommit(old(s.maps), s.maps, Desired(p, key), key, MapPolicyOf(p))
    ensures r.Applied? ==> SlotOf(s.maps, key) == Slot(Some(MapPolicyOf(p)), Desired(p, key))
    // only a refused store operation makes it fail
    ensures if r.Applied? || r.Rejected? then s.faults == old(s.faults) else s.faults > old(s.faults)
  {
    commit := |s.history|;
    SameIsPreCommit(s.maps, Desired(p, key));
    assert SameElsewhere(s.maps, s.maps, key);
    if !ConfigValid(p) {
      assert Refused(p, key, SlotOf(s.maps, key).policy, BadConfig);
      return Rejected(BadConfig), commit;
    }
    if key.netns == 0 || key.reserved != 0 {
      assert Refused(p, key, SlotOf(s.maps, key).policy, BadKey);
      return Rejected(BadKey), commit;
    }
    var wanted := DesiredPaths(p, key);
    if wanted.None? {
      assert Refused(p, key, SlotOf(s.maps, key).policy, NoEndpoints);
      return Rejected(NoEndpoints), commit;
    }
    var live := s.LookupPolicy(key);
    if live.LookupFailed? {
      return ReadFailed, commit;
    }
    if live.Found? && p.generation <= live.value.generation {
      assert Refused(p, key, SlotOf(s.maps, key).policy, StaleGeneration);
      return Rejected(StaleGeneration), commit;
    }
    var listed := s.ListPaths(key);
    if listed.None? {
      return ReadFailed, commit;
    }
    r, commit := Transact(wanted.value, MapPolicyOf(p), key, listed.value, s);
  }

  lemma SameIsPreCommit(m: Content, desired: Paths)
    ensures PreCommit(m, m, desired)
  {
  }

  /** The writing part of ApplyLive: stage, commit, clean up, or roll back. */
  method Transact(desired: Paths, policy: MapPolicy, key: ConnKey, before: Paths, s: MapStore)
    returns (r: ApplyResult, ghost commit: nat)
    requires s.Valid() && before == PathsOf(s.maps, key) && ForKey(desired, key)
    modifies s
    ensures s.Valid() && old(s.history) <= s.history
    ensures ApplyTrace(s.history, |old(s.history)|, commit, old(s.maps), desired, key, policy)
    ensures SameElsewhere(old(s.maps), s.maps, key)
    ensures r.Applied? || r.Aborted? || r.CleanupFailed?
    ensures r.Aborted? ==> commit == |s.history| && PreCommit(old(s.maps), s.maps, desired)
    ensures r.Aborted? && s.faults == old(s.faults) + 1 ==> s.maps == old(s.maps)
    ensures r.Aborted? ==>
      exists left :: |left| < s.faults - old(s.faults) && SameBut(old(s.maps), s.maps, left)
    ensures r.CleanupFailed? ==>
      exists left :: |left| <= s.faults - old(s.faults) && CleanBut(s.maps, key, desired, left)
    ensures !r.Aborted? ==> commit < |s.history| && PostCommit(old(s.maps), s.maps, desired, key, policy)
    ensures r.Applied? ==> SlotOf(s.maps, key) == Slot(Some(policy), desired)
    ensures if r.Applied? then s.faults == old(s.faults) else s.faults > old(s.faults)
  {
    ghost var start := s.maps;
    var ok, staged := Stage(s, desired);
    if ok {
      ghost var last := s.maps;
      commit := |s.history|;
      ok := s.UpdatePolicy(key, policy);
      if ok {
        CommitIsPostCommit(start, last, desired, key, policy);
        r := Cleanup(desired, policy, key, before, s, start);
        TraceIsLocal(start, s.maps, desired, key, policy);
        return r, commit;
      }
    }
    var failures;
    ghost var left;
    failures, left := Rollback(s, staged, before, start, desired, key);
    TraceIsLocal(start, s.maps, desired, key, policy);
    r, commit := Aborted, |s.history|;
  }

  /** The connection holds no path but the desired ones and those in `left`. */
  ghost predicate CleanBut(now: Content, key: ConnKey, desired: Paths, left: set<PathKey>) {
    forall k :: k in now.paths && k.conn == key ==> k in desired || k in left
  }

  lemma LeftBehind(start: Content, now: Content, desired: Paths, key: ConnKey, policy: MapPolicy, left: set<PathKey>)
    requires PostCommit(start, now, desired, key, policy)
    requires forall k :: k in PathsOf(start, key) && k !in desired && k !in left ==> k !in now.paths
    ensures CleanBut(now, key, desired, left)
  {
    forall k | k in now.paths && k.conn == key
      ensures k in desired || k in left
    {
      if k !in desired { assert SameAt(start.paths, now.paths, k); }
    }
  }

  /** Removes the paths the committed plan does not name. */
  method Cleanup(desired: Paths, policy: MapPolicy, key: ConnKey, before: Paths, s: MapStore, ghost start: Content)
    returns (r: ApplyResult)
    requires s.Valid() && before == PathsOf(start, key) && ForKey(desired, key)
    requires PostCommit(start, s.maps, desired, key, policy)
    modifies s
    ensures s.Valid() && old(s.history) <= s.history
    ensures forall i :: |old(s.history)| <= i < |s.history| ==> PostCommit(start, s.history[i], desired, key, policy)
    ensures PostCommit(start, s.maps, desired, key, policy)
    ensures if r.Applied? then s.faults == old(s.faults) && SlotOf(s.maps, key) == Slot(Some(policy), desired)
            else r.CleanupFailed? && s.faults > old(s.faults)
    ensures exists left :: |left| <= s.faults - old(s.faults) && CleanBut(s.maps, key, desired, left)
  {
    ghost var committed := s.maps;
    var stale := set k | k in before && k !in desired;
    var failures;
    ghost var left;
    failures, left := DeletePaths(s, stale);
    forall i | |old(s.history)| <= i < |s.history|
      ensures PostCommit(start, s.history[i], desired, key, policy)
    {
      PruningIsPostCommit(start, committed, s.history[i], desired, stale, key, policy);
    }
    PruningIsPostCommit(start, committed, s.maps, desired, stale, key, policy);
    LeftBehind(start, s.maps, desired, key, policy, left);
    if failures > 0 {
      return CleanupFailed;
    }
    CleanSlot(start, s.maps, desired, key, policy);
    r := Applied;
  }

  /** Removes the policy first, so that the scheduler falls back before paths vanish, then
      every path of the connection. `left` are the paths whose deletion was refused, if it got
      that far; otherwise the one refusal was that of the policy's deletion or of the list. */
  method DeleteLive(key: ConnKey, s: MapStore) returns (ok: bool, ghost left: Option<set<PathKey>>)
    requires s.Valid()
    modifies s
    ensures s.Valid() && old(s.history) <= s.history
    ensures forall i :: |old(s.history)| <= i < |s.history| ==> Removing(old(s.maps), s.history[i], key)
    ensures SameElsewhere(old(s.maps), s.maps, key)
    ensures s.maps == old(s.maps) || Removing(old(s.maps), s.maps, key)
    ensures ok ==> s.faults == old(s.faults) && SlotOf(s.maps, key) == EMPTY_SLOT
    ensures !ok ==> s.faults > old(s.faults)
    ensures left.None? ==> s.faults == old(s.faults) + 1
    ensures left.Some? ==>
      && |left.value| == s.faults - old(s.faults) && key !in s.maps.policies
      && CleanBut(s.maps, key, map[], left.value)
    ensures SlotOf(old(s.maps), key) == EMPTY_SLOT ==> s.history == old(s.history)
  {
    ghost var start := s.maps;
    var r := s.DeletePolicy(key);
    left := None;
    if r.DeleteFailed? {
      return false, left;
    }
    assert s.maps.policies == start.policies - {key};
    var listed := s.ListPaths(key);
    if listed.None? {
      return false, left;
    }
    ghost var last := s.maps;
    var failures;
    ghost var missed;
    failures, missed := DeletePaths(s, listed.value.Keys);
    left := Some(missed);
    forall i | |old(s.history)| <= i < |s.history|
      ensures Removing(start, s.history[i], key)
    {
      if s.history[i] != last {
        PruningIsRemoving(start, last, s.history[i], key);
      }
    }
    PruningIsRemoving(start, last, s.maps, key);
    ok := failures == 0;
    forall k | k in s.maps.paths && k.conn == key
      ensures k in missed
    {
      assert SameAt(last.paths, s.maps.paths, k);
      assert k in PathsOf(last, key);
    }
    if ok {
      forall k: PathKey | k.conn == key
        ensures k !in s.maps.paths
      {
        assert k in last.paths <==> k in PathsOf(last, key);
      }
      assert PathsOf(s.maps, key) == map[];
    }
  }

  lemma RemovingIsLocal(start: Content, now: Content, key: ConnKey)
    requires Removing(start, now, key)
    ensures SameElsewhere(start, now, key)
  {
    forall k: PathKey | k.conn != key
      ensures SameAt(start.paths, now.paths, k)
    {
    }
    assert start.policies - {key} == now.policies - {key};
  }

  lemma EmptyStaysEmpty(start: Content, now: Content, key: ConnKey)
    requires Removing(start, now, key) && SlotOf(start, key) == EMPTY_SLOT
    ensures SlotOf(now, key) == EMPTY_SLOT
  {
    forall k | k in PathsOf(now, key)
      ensures k in PathsOf(start, key)
    {
      assert SameAt(start.paths, now.paths, k);
    }
  }

  lemma PruningIsRemoving(start: Content, last: Content, now: Content, key: ConnKey)
    requires last.policies == start.policies - {key} && last.paths == start.paths
    requires Pruned(last, now, PathsOf(last, key).Keys)
    ensures Removing(start, now, key) && SameElsewhere(start, now, key)
  {
    forall k: PathKey
      ensures SameAt(start.paths, now.paths, k) || (k.conn == key && k !in now.paths)
    {
      assert SameAt(last.paths, now.paths, k) || (k in PathsOf(last, key).Keys && k !in now.paths);
    }
    assert start.policies - {key} == now.policies - {key};
  }
}
