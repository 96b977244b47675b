/** The two kernel maps shared by the agent and the scheduler, and the part of them that
    belongs to one connection. */
module Maps {
  import opened Words

  /** A connection: network namespace inode and local MPTCP token. */
  datatype ConnKey = ConnKey(netns: U64, token: U32, reserved: U32)

  datatype PathKey = PathKey(conn: ConnKey, localId: U32, remoteId: U32)

  datatype MapPolicy = MapPolicy(
    generation: U32, enabled: U32, mode: U32, weightA: U32, weightB: U32, rttDeltaUs: U32)

  datatype MapPath = MapPath(generation: U32, access: U32)

  type Paths = map<PathKey, MapPath>

  datatype Content = Content(policies: map<ConnKey, MapPolicy>, paths: Paths)

  /** Everything the maps hold for one connection. */
  datatype Slot = Slot(policy: Option<MapPolicy>, paths: Paths)

  const EMPTY_SLOT: Slot := Slot(None, map[])

  function PathsOf(m: Content, key: ConnKey): Paths {
    map k | k in m.paths && k.conn == key :: m.paths[k]
  }

  function SlotOf(m: Content, key: ConnKey): Slot {
    Slot(if key in m.policies then Some(m.policies[key]) else None, PathsOf(m, key))
  }

  predicate SameAt(a: Paths, b: Paths, k: PathKey) {
    (k in a <==> k in b) && (k in a ==> a[k] == b[k])
  }

  /** Only entries of connection `key` differ. */
  ghost predicate SameElsewhere(m: Content, n: Content, key: ConnKey) {
    && m.policies - {key} == n.policies - {key}
    && forall k: PathKey :: k.conn != key ==> SameAt(m.paths, n.paths, k)
  }

  lemma SlotsElsewhere(m: Content, n: Content, key: ConnKey, other: ConnKey)
    requires SameElsewhere(m, n, key) && other != key
    ensures SlotOf(m, other) == SlotOf(n, other)
  {
    assert other in m.policies <==> other in m.policies - {key};
    assert other in n.policies <==> other in n.policies - {key};
    assert other in m.policies ==> m.policies[other] == (m.policies - {key})[other];
    assert other in n.policies ==> n.policies[other] == (n.policies - {key})[other];
    forall k: PathKey | k.conn == other
      ensures SameAt(m.paths, n.paths, k)
    {
    }
    assert PathsOf(m, other) == PathsOf(n, other);
  }

  datatype Lookup<+T> = Found(value: T) | NotFound | LookupFailed

  datatype Deletion = Deleted | Absent | DeleteFailed

  /** The maps as an external store that may refuse any single operation without effect.
      `faults` counts refusals; `history` records the content after every single write,
      which is what a concurrent reader can observe. */
  class MapStore {
    var maps: Content
    ghost var faults: nat
    ghost var history: seq<Content>

    ghost predicate Valid()
      reads this
    {
      |history| > 0 && history[|history|-1] == maps
    }

    constructor (content: Content)
      ensures Valid() && maps == content && history == [content] && faults == 0
    {
      maps := content;
      faults := 0;
      history := [content];
    }

    method LookupPolicy(key: ConnKey) returns (r: Lookup<MapPolicy>)
      modifies this`faults
      ensures faults == old(faults) + if r.LookupFailed? then 1 else 0
      ensures !r.LookupFailed? ==>
        r == if key in maps.policies then Found(maps.policies[key]) else NotFound
    {
      if * {
        faults := faults + 1;
        return LookupFailed;
      }
      r := if key in maps.policies then Found(maps.policies[key]) else NotFound;
    }

    method ListPaths(key: ConnKey) returns (r: Option<Paths>)
      modifies this`faults
      ensures faults == old(faults) + if r.None? then 1 else 0
      ensures r.Some? ==> r.value == PathsOf(maps, key)
    {
      if * {
        faults := faults + 1;
        return None;
      }
      r := Some(PathsOf(maps, key));
    }

    method UpdatePolicy(key: ConnKey, policy: MapPolicy) returns (ok: bool)
      requires Valid()
      modifies this
      ensures Valid()
      ensures if ok then faults == old(faults) && history == old(history) + [maps]
                         && maps == old(maps).(policies := old(maps).policies[key := policy])
              else faults == old(faults) + 1 && history == old(history) && maps == old(maps)
    {
      if * {
        faults := faults + 1;
        return false;
      }
      maps := maps.(policies := maps.policies[key := policy]);
      history := history + [maps];
      ok := true;
    }

    method DeletePolicy(key: ConnKey) returns (r: Deletion)
      requires Valid()
      modifies this
      ensures Valid()
      ensures match r
        case Deleted =>
          && key in old(maps).policies && faults == old(faults) && history == old(history) + [maps]
          && maps == old(maps).(policies := old(maps).policies - {key})
        case Absent =>
          key !in maps.policies && faults == old(faults) && history == old(history) && maps == old(maps)
        case DeleteFailed =>
          faults == old(faults) + 1 && history == old(history) && maps == old(maps)
    {
      if * {
        faults := faults + 1;
        return DeleteFailed;
      }
      if key !in maps.policies {
        return Absent;
      }
      maps := maps.(policies := maps.policies - {key});
      history := history + [maps];
      r := Deleted;
    }

    method UpdatePath(k: PathKey, v: MapPath) returns (ok: bool)
      requires Valid()
      modifies this
      ensures Valid()
      ensures if ok then faults == old(faults) && history == old(history) + [maps]
                         && maps == old(maps).(paths := old(maps).paths[k := v])
              else faults == old(faults) + 1 && history == old(history) && maps == old(maps)
    {
      if * {
        faults := faults + 1;
        return false;
      }
      maps := maps.(paths := maps.paths[k := v]);
      history := history + [maps];
      ok := true;
    }

    method DeletePath(k: PathKey) returns (r: Deletion)
      requires Valid()
      modifies this
      ensures Valid()
      ensures match r
        case Deleted =>
          && k in old(maps).paths && faults == old(faults) && history == old(history) + [maps]
          && maps == old(maps).(paths := old(maps).paths - {k})
        case Absent =>
          k !in maps.paths && faults == old(faults) && history == old(history) && maps == old(maps)
        case DeleteFailed =>
          faults == old(faults) + 1 && history == old(history) && maps == old(maps)
    {
      if * {
        faults := faults + 1;
        return DeleteFailed;
      }
      if k !in maps.paths {
        return Absent;
      }
      maps := maps.(paths := maps.paths - {k});
      history := history + [maps];
      r := Deleted;
    }
  }
}
