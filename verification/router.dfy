/**
 * `CapacityAwareRouter` of `src/routing.ts`: the peers it knows, the probes it has in flight, and
 * where it sends a request. The reply to a probe lands on the cache object the probe was started
 * for, which may have been replaced by then. Parsing a URL is a parameter of the router.
 */
module Router {
  import opened Wrappers
  import opened Text
  import opened Json
  import opened Limits
  import opened Stats
  import opened RoutingCapacity
  import opened RoutingBuilder
  import opened RoutingScore
  import opened RoutingChoice

  /** A peer as configured or advertised. */
  datatype Peer = Peer(id: string, baseUrl: string)

  datatype Topology = Topology(revision: int, peers: seq<Peer>)

  datatype Snapshot = Snapshot(schemaVersion: int, instanceId: string, ready: bool, pools: map<string, PoolCapacity>)

  /** A probe's JSON; `dated` says whether `generatedAt` is a timestamp. */
  datatype RawSnapshot = RawSnapshot(
    schemaVersion: int, instanceId: Option<string>, ready: Option<bool>, dated: bool,
    pools: Record<map<string, Record<RawPool>>>)

  datatype Route = Route(instanceId: string, local: bool, baseUrl: Option<string>, score: real)

  datatype Outcome = Threw | Ignored | Applied

  // ---------- Snapshots ----------

  ghost predicate ReadsSnapshot(raw: RawSnapshot, expected: string, s: Snapshot) {
    && 1 <= raw.schemaVersion <= 3 && raw.schemaVersion == s.schemaVersion
    && raw.instanceId == Some(expected) && s.instanceId == expected
    && raw.ready == Some(s.ready)
    && raw.dated
    && raw.pools.Record? && ReadsPools(raw.pools.value, s.schemaVersion, s.pools)
  }

  ghost predicate ReadsPools(raw: map<string, Record<RawPool>>, schema: int, pools: map<string, PoolCapacity>) {
    && raw.Keys == pools.Keys
    && forall name <- pools :: !Blank(name) && Reads(raw[name], schema, pools[name]) && CapacityOk(pools[name])
  }

  /** `validateSnapshot`: one bad pool refuses the whole snapshot. */
  method ValidateSnapshot(raw: RawSnapshot, expected: string) returns (r: Option<Snapshot>)
    ensures forall s :: r == Some(s) <==> ReadsSnapshot(raw, expected, s)
  {
    hide ReadsPools;
    if !(1 <= raw.schemaVersion <= 3) || raw.instanceId != Some(expected) || raw.ready.None? || !raw.dated
       || !raw.pools.Record? {
      return None;
    }
    var pools := ValidatePools(raw.pools.value, raw.schemaVersion);
    if pools.None? {
      return None;
    }
    return Some(Snapshot(raw.schemaVersion, expected, raw.ready.value, pools.value));
  }

  /** The raw pool is accepted, as this snapshot. */
  ghost predicate AcceptedAs(raw: Record<RawPool>, schema: int, p: PoolCapacity) {
    forall other :: other == p <==> Reads(raw, schema, other) && CapacityOk(other)
  }

  method ValidatePools(raw: map<string, Record<RawPool>>, schema: int) returns (r: Option<map<string, PoolCapacity>>)
    ensures forall pools :: r == Some(pools) <==> ReadsPools(raw, schema, pools)
  {
    hide Reads, CapacityOk, Blank;
    var pools: map<string, PoolCapacity> := map[];
    var remaining := raw.Keys;
    while remaining != {}
      invariant remaining <= raw.Keys && pools.Keys == raw.Keys - remaining
      invariant forall name <- pools :: !Blank(name)
      invariant forall name <- pools :: AcceptedAs(raw[name], schema, pools[name])
      decreases |remaining|
    {
      var name :| name in remaining;
      var pool := ValidatePoolCapacity(raw[name], schema);
      if Blank(name) || pool.None? {
        return None;
      }
      assert forall p :: pool == Some(p) <==> p == pool.value;
      pools := pools[name := pool.value];
      remaining := remaining - {name};
    }
    assert pools.Keys == raw.Keys;
    forall other | ReadsPools(raw, schema, other)
      ensures other == pools
    {
      forall name <- pools
        ensures other[name] == pools[name]
      {
        assert AcceptedAs(raw[name], schema, pools[name]);
      }
    }
    return Some(pools);
  }

  function BuiltPools(stats: map<string, PoolStats>): map<string, PoolCapacity> {
    map name <- stats :: Built(stats[name])
  }

  /** `buildCapacitySnapshot`, without its date. */
  method BuildCapacitySnapshot(instanceId: string, ready: bool, stats: map<string, PoolStats>) returns (s: Snapshot)
    ensures s == Snapshot(3, instanceId, ready, BuiltPools(stats))
  {
    hide Built;
    var pools: map<string, PoolCapacity> := map[];
    var remaining := stats.Keys;
    while remaining != {}
      invariant remaining <= stats.Keys
      invariant pools == map name | name in stats && name !in remaining :: Built(stats[name])
      decreases |remaining|
    {
      var name :| name in remaining;
      var pool := BuildPoolCapacity(stats[name]);
      pools := pools[name := pool];
      remaining := remaining - {name};
    }
    assert pools == BuiltPools(stats);
    return Snapshot(3, instanceId, ready, pools);
  }

  /** The order in which each pool's classes are written. */
  ghost predicate OrdersAll(order: map<string, seq<ClassId>>, pools: map<string, PoolCapacity>) {
    forall name <- pools :: name in order && Orders(order[name], pools[name])
  }

  function EncodePools(pools: map<string, PoolCapacity>, order: map<string, seq<ClassId>>):
    map<string, Record<RawPool>>
    requires OrdersAll(order, pools)
  {
    map name <- pools :: Record(Encode(pools[name], order[name]))
  }

  function EncodeSnapshot(s: Snapshot, order: map<string, seq<ClassId>>): RawSnapshot
    requires OrdersAll(order, s.pools)
  {
    RawSnapshot(s.schemaVersion, Some(s.instanceId), Some(s.ready), true, Record(EncodePools(s.pools, order)))
  }

  lemma PublishedReads(s: Snapshot, stats: map<string, PoolStats>, order: map<string, seq<ClassId>>)
    requires s == Snapshot(3, s.instanceId, s.ready, BuiltPools(stats)) && OrdersAll(order, s.pools)
    requires forall name <- stats :: Accounted(stats[name])
    ensures (forall name <- stats :: !Blank(name)) ==> ReadsSnapshot(EncodeSnapshot(s, order), s.instanceId, s)
    ensures (exists name <- stats :: Blank(name)) ==>
              forall other :: !ReadsSnapshot(EncodeSnapshot(s, order), s.instanceId, other)
  {
    hide Built, Accounted, Blank, CapacityOk, Reads, Orders, Encode;
    forall name <- stats
      ensures CapacityOk(s.pools[name]) && Reads(EncodePools(s.pools, order)[name], 3, s.pools[name])
    {
      BuiltOk(stats[name]);
      EncodedReads(s.pools[name], order[name]);
    }
  }

  /**
   * What a replica publishes of itself, another that expects it reads unchanged, provided that no pool
   * has a blank name; with one, it reads nothing.
   */
  method PublishAndReadAll(instanceId: string, ready: bool, stats: map<string, PoolStats>,
                           order: map<string, seq<ClassId>>) returns (sent: Snapshot, received: Option<Snapshot>)
    requires (forall name <- stats :: Accounted(stats[name])) && OrdersAll(order, BuiltPools(stats))
    ensures sent == Snapshot(3, instanceId, ready, BuiltPools(stats))
    ensures received == if forall name <- stats :: !Blank(name) then Some(sent) else None
  {
    hide BuiltPools, OrdersAll, Accounted, Blank, ReadsSnapshot, EncodeSnapshot;
    sent := BuildCapacitySnapshot(instanceId, ready, stats);
    PublishedReads(sent, stats, order);
    received := ValidateSnapshot(EncodeSnapshot(sent, order), instanceId);
  }

  // ---------- Topologies ----------

  /** The remote peers a topology declares, by trimmed identifier, or `None` where the loop throws. */
  function Declared(peers: seq<Peer>, self: string, normalizeUrl: string -> Option<string>): Option<map<string, string>>
  {
    if peers == [] then Some(map[])
    else
      var n := |peers| - 1;
      var earlier := Declared(peers[..n], self, normalizeUrl);
      var id, url := Trim(peers[n].id), normalizeUrl(peers[n].baseUrl);
      if earlier.None? || id == "" then None
      else if id == self then earlier
      else if id in earlier.value || url.None? then None
      else Some(earlier.value[id := url.value])
  }

  predicate Remote(p: Peer, self: string) {
    Trim(p.id) != self
  }

  /** No identifier is blank, no remote one comes back once trimmed, and every remote URL is well formed. */
  ghost predicate Usable(peers: seq<Peer>, self: string, normalizeUrl: string -> Option<string>) {
    && (forall i | 0 <= i < |peers| :: !Blank(peers[i].id))
    && (forall i, j | 0 <= i < j < |peers| && Remote(peers[i], self) :: Trim(peers[i].id) != Trim(peers[j].id))
    && (forall i | 0 <= i < |peers| && Remote(peers[i], self) :: normalizeUrl(peers[i].baseUrl).Some?)
  }

  ghost predicate Advertises(peers: seq<Peer>, self: string, normalizeUrl: string -> Option<string>, id: string,
                             url: string)
  {
    exists i | 0 <= i < |peers| ::
      Remote(peers[i], self) && Trim(peers[i].id) == id && normalizeUrl(peers[i].baseUrl) == Some(url)
  }

  /** What a usable topology declares is what it advertises, and never the router itself. */
  lemma {:induction false} DeclaredIsAdvertised(peers: seq<Peer>, self: string, normalizeUrl: string -> Option<string>)
    requires Declared(peers, self, normalizeUrl).Some?
    ensures var d := Declared(peers, self, normalizeUrl).value;
            && self !in d
            && (forall id <- d :: Advertises(peers, self, normalizeUrl, id, d[id]))
            && (forall i | 0 <= i < |peers| && Remote(peers[i], self) :: Trim(peers[i].id) in d)
  {
    hide Trim;
    if peers != [] {
      var n := |peers| - 1;
      DeclaredIsAdvertised(peers[..n], self, normalizeUrl);
      var d, before := Declared(peers, self, normalizeUrl).value, Declared(peers[..n], self, normalizeUrl).value;
      forall i | 0 <= i < n
        ensures peers[..n][i] == peers[i]
      {
      }
      forall id <- d
        ensures Advertises(peers, self, normalizeUrl, id, d[id])
      {
        if id in before {
          assert Advertises(peers[..n], self, normalizeUrl, id, before[id]);
        }
      }
    }
  }

  /** One more peer is usable when it is named, and is either the router itself or new with a well-formed URL. */
  lemma UsableStep(peers: seq<Peer>, n: nat, self: string, normalizeUrl: string -> Option<string>)
    requires n + 1 == |peers|
    ensures Usable(peers, self, normalizeUrl) <==>
              && Usable(peers[..n], self, normalizeUrl)
              && !Blank(peers[n].id)
              && (Remote(peers[n], self) ==>
                    && normalizeUrl(peers[n].baseUrl).Some?
                    && forall i | 0 <= i < n :: Remote(peers[i], self) ==> Trim(peers[i].id) != Trim(peers[n].id))
  {
    hide Trim, Blank;
    assert forall i | 0 <= i < n :: peers[..n][i] == peers[i];
  }

  lemma {:induction false} DeclaredExactly(peers: seq<Peer>, self: string, normalizeUrl: string -> Option<string>)
    ensures Declared(peers, self, normalizeUrl).Some? <==> Usable(peers, self, normalizeUrl)
  {
    hide Trim, Usable;
    if peers == [] {
      assert Usable(peers, self, normalizeUrl) by {
        UsableNothing(self, normalizeUrl);
      }
    } else {
      var n := |peers| - 1;
      DeclaredExactly(peers[..n], self, normalizeUrl);
      UsableStep(peers, n, self, normalizeUrl);
      if Declared(peers[..n], self, normalizeUrl).Some? {
        DeclaredIsAdvertised(peers[..n], self, normalizeUrl);
        assert forall i | 0 <= i < n :: peers[..n][i] == peers[i];
        var before, id := Declared(peers[..n], self, normalizeUrl).value, Trim(peers[n].id);
        assert id in before ==> Advertises(peers[..n], self, normalizeUrl, id, before[id]);
      }
    }
  }

  lemma UsableNothing(self: string, normalizeUrl: string -> Option<string>)
    ensures Usable([], self, normalizeUrl)
  {
  }

  // ---------- Selection ----------

  /** What a selection is asked, with the local pool's statistics if there is such a pool. */
  datatype Query = Query(local: Option<PoolStats>, ready: bool, poolName: string, request: Request, nowMs: int)

  /** `compatibleAdmissionClasses`. */
  predicate Compatible(local: Option<ClassesStats>, peer: Option<ClassesCapacity>) {
    if local.None? || peer.None? then local.None? && peer.None?
    else local.value.defaultClass == peer.value.defaultClass && local.value.classes.Keys == peer.value.classes.Keys
  }

  /** `hasProtectedAdmissionClassFloors`. */
  predicate HasFloors(local: Option<ClassesStats>) {
    && local.Some?
    && exists id <- local.value.classes ::
         || local.value.classes[id].limits.protectedConcurrent.GetOr(0) > 0
         || local.value.classes[id].limits.protectedInFlightTokens.GetOr(0) > 0
  }

  function LocalClasses(q: Query): Option<ClassesStats> {
    if q.local.None? then None else q.local.value.admissionClasses
  }

  /** A peer takes part when its snapshot is recent, ready, and of a pool with the same contract. */
  predicate Eligible(k: Known, q: Query, staleAfterMs: int): (eligible: bool)
    ensures eligible ==> k.snapshot.Some? && q.poolName in k.snapshot.value.pools
    ensures eligible ==> k.refreshedAtMs.Some? && q.nowMs - k.refreshedAtMs.value <= staleAfterMs
  {
    && k.snapshot.Some? && k.refreshedAtMs.Some?
    && q.nowMs - k.refreshedAtMs.value <= staleAfterMs
    && k.snapshot.value.ready
    && q.poolName in k.snapshot.value.pools
    && k.snapshot.value.pools[q.poolName].tokenBudget.Some? == (q.local.Some? && q.local.value.tokenBudget.Some?)
    && Compatible(LocalClasses(q), k.snapshot.value.pools[q.poolName].admissionClasses)
    && (k.snapshot.value.schemaVersion < 3 ==> !HasFloors(LocalClasses(q)))
  }

  /** The peer's pool and the local one have the same contract. */
  predicate SameContract(pool: PoolCapacity, local: Option<PoolStats>) {
    && (pool.tokenBudget.Some? <==> local.Some? && local.value.tokenBudget.Some?)
    && (pool.admissionClasses.Some? <==> local.Some? && local.value.admissionClasses.Some?)
    && (pool.admissionClasses.Some? ==>
          && pool.admissionClasses.value.defaultClass == local.value.admissionClasses.value.defaultClass
          && pool.admissionClasses.value.classes.Keys == local.value.admissionClasses.value.classes.Keys)
  }

  predicate Positive(n: Option<int>) {
    n.Some? && n.value > 0
  }

  /** Some class of the local pool has a floor. */
  predicate FloorsHere(local: Option<PoolStats>) {
    && local.Some? && local.value.admissionClasses.Some?
    && exists id <- local.value.admissionClasses.value.classes ::
         var l := local.value.admissionClasses.value.classes[id].limits;
         Positive(l.protectedConcurrent) || Positive(l.protectedInFlightTokens)
  }

  /**
   * The peer says it is ready and has the pool, under the same contract, in a schema that knows floors
   * if there are floors here; and its snapshot is no older than allowed.
   */
  predicate TakesPart(k: Known, q: Query, staleAfterMs: int) {
    && k.snapshot.Some? && k.refreshedAtMs.Some?
    && q.nowMs <= k.refreshedAtMs.value + staleAfterMs
    && k.snapshot.value.ready
    && q.poolName in k.snapshot.value.pools
    && SameContract(k.snapshot.value.pools[q.poolName], q.local)
    && (FloorsHere(q.local) ==> k.snapshot.value.schemaVersion >= 3)
  }

  lemma EligibleExactly(k: Known, q: Query, staleAfterMs: int)
    ensures Eligible(k, q, staleAfterMs) <==> TakesPart(k, q, staleAfterMs)
  {
    if FloorsHere(q.local) {
      assert HasFloors(LocalClasses(q));
    }
  }

  ghost predicate IsPeerCandidate(c: Candidate, table: map<string, Known>, q: Query, staleAfterMs: int) {
    && c.instanceId in table
    && Eligible(table[c.instanceId], q, staleAfterMs)
    && c == Scored(c.instanceId, false, Some(table[c.instanceId].baseUrl),
                   table[c.instanceId].snapshot.value.pools[q.poolName], q.request)
  }

  ghost predicate IsLocalCandidate(c: Candidate, self: string, q: Query) {
    q.local.Some? && q.ready && c == Scored(self, true, None, Built(q.local.value), q.request)
  }

  /** If the pool would admit the request, the route scores at least as high. */
  ghost predicate Outscored(p: PoolCapacity, r: Request, route: Route) {
    Admits(p, r) ==> ScoreOf(p, r, HeadroomsOf(p, r, UnusedProtectedTokens(p))) <= route.score
  }

  function RouteTo(best: Candidate, self: string): Route {
    if best.local then Route(self, true, None, best.score) else Route(best.instanceId, false, best.baseUrl, best.score)
  }

  function RouteFor(best: Option<Candidate>, self: string): Route {
    if best.None? then Route(self, true, None, -1.0) else RouteTo(best.value, self)
  }

  /** The list has the local pool, if it can be used, and every peer that takes part; and nothing else. */
  ghost predicate ListsAll(candidates: seq<Candidate>, self: string, table: map<string, Known>, q: Query,
                           staleAfterMs: int)
  {
    forall c :: c in candidates <==> IsLocalCandidate(c, self, q) || IsPeerCandidate(c, table, q, staleAfterMs)
  }

  /** The route scores at least as high as any pool that would admit the request. */
  ghost predicate OutscoresAll(route: Route, table: map<string, Known>, q: Query, staleAfterMs: int) {
    && (forall id <- table | TakesPart(table[id], q, staleAfterMs) ::
          Outscored(table[id].snapshot.value.pools[q.poolName], q.request, route))
    && (q.local.Some? && q.ready ==> Outscored(Built(q.local.value), q.request, route))
  }

  lemma ScoredSays(id: string, local: bool, baseUrl: Option<string>, p: PoolCapacity, r: Request)
    ensures var c := Scored(id, local, baseUrl, p, r);
            && (c.admissible <==> Admits(p, r))
            && (Admits(p, r) ==> c.score == ScoreOf(p, r, HeadroomsOf(p, r, UnusedProtectedTokens(p))))
  {
    hide Admissible, ScoreOf, HeadroomsOf, SelectedClass, UnusedProtectedTokens;
  }

  /** What a candidate list without admissible candidates, or with a best one, says of every pool in it. */
  lemma ChoiceOutscores(less: (string, string) -> bool, candidates: seq<Candidate>, self: string,
                        table: map<string, Known>, q: Query, staleAfterMs: int, best: Option<Candidate>)
    requires ListsAll(candidates, self, table, q, staleAfterMs)
    requires best.None? ==> forall c <- candidates :: !c.admissible
    requires best.Some? ==> Best(less, candidates, best.value)
    ensures OutscoresAll(RouteFor(best, self), table, q, staleAfterMs)
  {
    hide Scored, Eligible, SameContract, FloorsHere, Outscored, Built, Best;
    forall id <- table | TakesPart(table[id], q, staleAfterMs)
      ensures Outscored(table[id].snapshot.value.pools[q.poolName], q.request, RouteFor(best, self))
    {
      EligibleExactly(table[id], q, staleAfterMs);
      var p, url := table[id].snapshot.value.pools[q.poolName], Some(table[id].baseUrl);
      assert IsPeerCandidate(Scored(id, false, url, p, q.request), table, q, staleAfterMs);
      ListedIsOutscored(less, candidates, best, self, id, false, url, p, q.request);
    }
    if q.local.Some? && q.ready {
      var p := Built(q.local.value);
      assert IsLocalCandidate(Scored(self, true, None, p, q.request), self, q);
      ListedIsOutscored(less, candidates, best, self, self, true, None, p, q.request);
    }
  }

  lemma ListedIsOutscored(less: (string, string) -> bool, candidates: seq<Candidate>, best: Option<Candidate>,
                          self: string, id: string, local: bool, baseUrl: Option<string>, p: PoolCapacity, r: Request)
    requires Scored(id, local, baseUrl, p, r) in candidates
    requires best.None? ==> forall d <- candidates :: !d.admissible
    requires best.Some? ==> Best(less, candidates, best.value)
    ensures Outscored(p, r, RouteFor(best, self))
  {
    ScoredSays(id, local, baseUrl, p, r);
    hide Scored, Admits, ScoreOf, HeadroomsOf, UnusedProtectedTokens, Compare;
    var c := Scored(id, local, baseUrl, p, r);
    if best.Some? && c.admissible {
      BestIsOptimal(less, candidates, best.value, c);
    }
  }

  lemma LocalTakesPart(c: Candidate, self: string, table: map<string, Known>, q: Query, staleAfterMs: int)
    requires IsLocalCandidate(c, self, q) || IsPeerCandidate(c, table, q, staleAfterMs)
    requires c.admissible && c.local
    ensures q.local.Some? && q.ready && Admits(Built(q.local.value), q.request)
  {
    hide Eligible, Scored, Admits, Built;
    if q.local.Some? {
      ScoredSays(self, true, None, Built(q.local.value), q.request);
    }
  }

  lemma RemoteTakesPart(c: Candidate, table: map<string, Known>, q: Query, staleAfterMs: int)
    requires IsPeerCandidate(c, table, q, staleAfterMs) && c.admissible
    ensures TakesPart(table[c.instanceId], q, staleAfterMs)
    ensures Admits(table[c.instanceId].snapshot.value.pools[q.poolName], q.request)
  {
    hide Eligible, TakesPart, Scored, Admits;
    EligibleExactly(table[c.instanceId], q, staleAfterMs);
    ScoredSays(c.instanceId, false, Some(table[c.instanceId].baseUrl),
               table[c.instanceId].snapshot.value.pools[q.poolName], q.request);
  }

  // ---------- The router ----------

  class CachedPeer {
    const peer: Peer
    var snapshot: Option<Snapshot>
    var refreshedAtMs: Option<int>
    /** The base URL the snapshot was fetched from. */
    ghost var fetchedFrom: Option<string>

    constructor (peer: Peer)
      ensures this.peer == peer && snapshot.None? && refreshedAtMs.None? && fetchedFrom.None?
    {
      this.peer := peer;
      snapshot, refreshedAtMs, fetchedFrom := None, None, None;
    }

    /** A snapshot is about this peer, comes from its URL, and satisfies every equation. */
    ghost predicate Valid()
      reads this
    {
      && (snapshot.Some? <==> refreshedAtMs.Some?)
      && (snapshot.Some? ==>
            && snapshot.value.instanceId == peer.id
            && fetchedFrom == Some(peer.baseUrl)
            && forall name <- snapshot.value.pools :: CapacityOk(snapshot.value.pools[name]))
    }
  }

  ghost function TableOf(peers: map<string, CachedPeer>): map<string, Known>
    reads peers.Values
  {
    map id <- peers :: Known(peers[id].peer.baseUrl, peers[id].snapshot, peers[id].refreshedAtMs)
  }

  function UrlsOf(peers: map<string, CachedPeer>): map<string, string> {
    map id <- peers :: peers[id].peer.baseUrl
  }

  /** What the router knows about one peer. */
  datatype Known = Known(baseUrl: string, snapshot: Option<Snapshot>, refreshedAtMs: Option<int>)

  class CapacityAwareRouter {
    const instanceId: string
    const staleAfterMs: nat
    const normalizeUrl: string -> Option<string>
    var peers: map<string, CachedPeer>
    var topologyRevision: Option<int>
    /** `#refreshing`, and the cache objects whose probe has not settled. */
    var refreshing: bool
    var probing: set<CachedPeer>
    /** The peers of the last topology applied, or the configured ones before any. */
    ghost var advertised: seq<Peer>
    /** Every revision applied, oldest first; and every cache object that has left the map. */
    ghost var applied: seq<int>
    ghost var discarded: set<CachedPeer>

    ghost predicate Valid()
      reads this, peers.Values
    {
      && (forall id <- peers :: peers[id].peer.id == id && id != instanceId && peers[id].Valid())
      && Declared(advertised, instanceId, normalizeUrl) == Some(UrlsOf(peers))
      && (forall i, j | 0 <= i < j < |applied| :: applied[i] < applied[j])
      && topologyRevision == (if applied == [] then None else Some(applied[|applied| - 1]))
      && discarded !! peers.Values
      && probing <= peers.Values + discarded
      && (!refreshing ==> probing == {})
    }

    /** The routing table: all that a selection looks at. */
    ghost function Table(): map<string, Known>
      reads this, peers.Values
    {
      TableOf(peers)
    }

    /** Where the original throws, no router is built. */
    constructor (instanceId: string, staleAfterMs: nat, normalizeUrl: string -> Option<string>, configured: seq<Peer>)
      requires !Blank(instanceId)
      requires Usable(configured, Trim(instanceId), normalizeUrl)
      requires forall i | 0 <= i < |configured| :: Remote(configured[i], Trim(instanceId))
      ensures Valid() && topologyRevision.None? && !refreshing && advertised == configured
      ensures this.instanceId == Trim(instanceId)
      ensures Table() == Carried(map[], Declared(configured, Trim(instanceId), normalizeUrl).GetOr(map[]))
    {
      this.instanceId, this.staleAfterMs, this.normalizeUrl := Trim(instanceId), staleAfterMs, normalizeUrl;
      peers, topologyRevision, refreshing, probing := map[], None, false, {};
      advertised, applied, discarded := configured, [], {};
      new;
      hide Declared, Usable, Trim, Blank, Advertises, CachedPeer.Valid, TableOf, Carried, Merged;
      DeclaredExactly(configured, this.instanceId, normalizeUrl);
      DeclaredIsAdvertised(configured, this.instanceId, normalizeUrl);
      var next := Merge(configured);
      ghost var declared := Declared(configured, this.instanceId, normalizeUrl).value;
      peers := next.value;
      MergedPeers(map[], declared, peers);
      assert TableOf(map[]) == map[] by {
        NothingKnown();
      }
    }

    /**
     * The loop that builds the next peer map: an object is kept when its URL is unchanged, and
     * replaced by an empty one otherwise.
     */
    method Merge(declared: seq<Peer>) returns (next: Option<map<string, CachedPeer>>)
      ensures next.None? <==> Declared(declared, instanceId, normalizeUrl).None?
      ensures next.Some? ==> Merged(old(peers), Declared(declared, instanceId, normalizeUrl).value, next.value)
      ensures next.Some? ==> forall id <- next.value :: next.value[id] in peers.Values || fresh(next.value[id])
    {
      var built: map<string, CachedPeer> := map[];
      for i := 0 to |declared|
        invariant Declared(declared[..i], instanceId, normalizeUrl).Some?
        invariant Merged(peers, Declared(declared[..i], instanceId, normalizeUrl).value, built)
        invariant forall id <- built :: built[id] in peers.Values || fresh(built[id])
      {
        assert declared[..i + 1][..i] == declared[..i];
        var id, url := Trim(declared[i].id), normalizeUrl(declared[i].baseUrl);
        if id == "" || (id != instanceId && (id in built || url.None?)) {
          DeclaredFails(declared, i + 1, instanceId, normalizeUrl);
          return None;
        }
        if id != instanceId {
          if id in peers && peers[id].peer == Peer(id, url.value) {
            built := built[id := peers[id]];
          } else {
            var cached := new CachedPeer(Peer(id, url.value));
            built := built[id := cached];
          }
        }
      }
      assert declared[..|declared|] == declared;
      return Some(built);
    }

    predicate Newer(revision: int)
      reads this
    {
      topologyRevision.Some? ==> revision > topologyRevision.value
    }

    /** `applyTopology`. It replaces the peers as a whole, or changes nothing. */
    method ApplyTopology(t: Topology) returns (r: Outcome)
      requires Valid()
      modifies this`peers, this`topologyRevision, this`advertised, this`applied, this`discarded
      ensures Valid()
      ensures r.Threw? <==>
                !SafeNat(t.revision) || (old(Newer(t.revision)) && !Usable(t.peers, instanceId, normalizeUrl))
      ensures r.Ignored? <==> SafeNat(t.revision) && !old(Newer(t.revision))
      ensures !r.Applied? ==>
                peers == old(peers) && topologyRevision == old(topologyRevision) && advertised == old(advertised)
                && applied == old(applied) && discarded == old(discarded)
      ensures r.Applied? ==>
                topologyRevision == Some(t.revision) && advertised == t.peers && applied == old(applied) + [t.revision]
      ensures r.Applied? ==> Table() == Carried(old(Table()), Declared(t.peers, instanceId, normalizeUrl).GetOr(map[]))
      ensures r.Applied? ==> discarded == old(discarded) + (old(peers.Values) - peers.Values)
    {
      hide Declared, Usable, Valid, Table, Merged, Carried;
      if !SafeNat(t.revision) {
        return Threw;
      }
      if topologyRevision.Some? && t.revision <= topologyRevision.value {
        return Ignored;
      }
      DeclaredExactly(t.peers, instanceId, normalizeUrl);
      var next := Merge(t.peers);
      if next.None? {
        return Threw;
      }
      Adopt(t, next.value);
      return Applied;
    }

    method Adopt(t: Topology, next: map<string, CachedPeer>)
      requires Valid() && Newer(t.revision)
      requires Declared(t.peers, instanceId, normalizeUrl).Some?
      requires Merged(peers, Declared(t.peers, instanceId, normalizeUrl).value, next)
      requires forall id <- next :: next[id] in peers.Values || next[id] !in discarded
      modifies this`peers, this`topologyRevision, this`advertised, this`applied, this`discarded
      ensures Valid()
      ensures topologyRevision == Some(t.revision) && advertised == t.peers && applied == old(applied) + [t.revision]
      ensures Table() == Carried(old(Table()), Declared(t.peers, instanceId, normalizeUrl).value)
      ensures discarded == old(discarded) + (old(peers.Values) - peers.Values)
    {
      hide Declared, Usable, Advertises, CachedPeer.Valid, TableOf, Carried, Merged;
      DeclaredIsAdvertised(t.peers, instanceId, normalizeUrl);
      ghost var declared := Declared(t.peers, instanceId, normalizeUrl).value;
      MergedPeers(peers, declared, next);
      discarded := discarded + (peers.Values - next.Values);
      peers := next;
      topologyRevision := Some(t.revision);
      advertised := t.peers;
      applied := applied + [t.revision];
    }

    /** `refresh`: one probe for every peer now in the map, unless a refresh is under way. */
    method StartRefresh() returns (started: set<CachedPeer>)
      requires Valid()
      modifies this`refreshing, this`probing
      ensures Valid() && refreshing
      ensures started == (if old(refreshing) then {} else peers.Values)
      ensures probing == (if old(refreshing) then old(probing) else peers.Values)
    {
      if refreshing {
        return {};
      }
      refreshing, probing := true, peers.Values;
      return peers.Values;
    }

    /** A probe has been answered (`None`: it failed). The reply lands on the object it was started for. */
    method OnProbeReply(cached: CachedPeer, reply: Option<RawSnapshot>, nowMs: int)
      requires Valid() && cached in probing
      modifies this`probing, cached`snapshot, cached`refreshedAtMs, cached`fetchedFrom
      ensures Valid() && probing == old(probing) - {cached}
      ensures cached in discarded ==> Table() == old(Table())
      ensures cached !in discarded ==>
                && cached.peer.id in peers && peers[cached.peer.id] == cached
                && ((forall s :: reply.None? || !ReadsSnapshot(reply.value, cached.peer.id, s)) ==>
                      Table() == old(Table()))
                && (forall s | reply.Some? && ReadsSnapshot(reply.value, cached.peer.id, s) ::
                      Table() == old(Table())[cached.peer.id := Known(cached.peer.baseUrl, Some(s), Some(nowMs))])
    {
      hide ReadsSnapshot, CapacityOk, CachedPeer.Valid, TableOf, Declared;
      probing := probing - {cached};
      if reply.None? {
        return;
      }
      var snapshot := ValidateSnapshot(reply.value, cached.peer.id);
      if snapshot.Some? {
        PoolsAreOk(reply.value, cached.peer.id, snapshot.value);
        Store(cached, snapshot.value, nowMs);
      }
    }

    /** The reply replaces what its object knew; any other object is left alone. */
    method Store(cached: CachedPeer, snapshot: Snapshot, nowMs: int)
      requires Valid() && cached in peers.Values + discarded
      requires snapshot.instanceId == cached.peer.id
      requires forall name <- snapshot.pools :: CapacityOk(snapshot.pools[name])
      modifies cached`snapshot, cached`refreshedAtMs, cached`fetchedFrom
      ensures Valid()
      ensures Table() == if cached in discarded then old(Table())
                         else old(Table())[cached.peer.id := Known(cached.peer.baseUrl, Some(snapshot), Some(nowMs))]
    {
      hide CapacityOk, Declared;
      cached.snapshot := Some(snapshot);
      cached.refreshedAtMs := Some(nowMs);
      cached.fetchedFrom := Some(cached.peer.baseUrl);
    }

    /** `select`: the best of the local pool and the eligible peers, or the local replica when nothing is admissible. */
    method Select(less: (string, string) -> bool, q: Query) returns (route: Route, ghost candidates: seq<Candidate>)
      requires Valid() && StrictTotal(less)
      ensures q.local.Some? && q.local.value.mode.Observe? ==> route == Route(instanceId, true, None, -1.0)
      ensures !(q.local.Some? && q.local.value.mode.Observe?) ==>
                && (forall c :: c in candidates <==>
                      IsLocalCandidate(c, instanceId, q) || IsPeerCandidate(c, Table(), q, staleAfterMs))
                && ((forall c <- candidates :: !c.admissible) ==> route == Route(instanceId, true, None, -1.0))
                && ((exists c <- candidates :: c.admissible) ==>
                      exists best :: Best(less, candidates, best) && route == RouteTo(best, instanceId))
      ensures !route.local ==>
                && route.instanceId != instanceId && route.instanceId in peers
                && route.baseUrl == Some(peers[route.instanceId].peer.baseUrl) == peers[route.instanceId].fetchedFrom
                && Advertises(advertised, instanceId, normalizeUrl, route.instanceId, route.baseUrl.value)
                && TakesPart(Table()[route.instanceId], q, staleAfterMs)
                && Admits(Table()[route.instanceId].snapshot.value.pools[q.poolName], q.request)
      ensures !(q.local.Some? && q.local.value.mode.Observe?) ==> OutscoresAll(route, Table(), q, staleAfterMs)
      ensures route.local ==>
                || route == Route(instanceId, true, None, -1.0)
                || (q.local.Some? && q.ready && Admits(Built(q.local.value), q.request))
    {
      hide Scored, Eligible, TakesPart, Admits, OutscoresAll, StrictTotal, Compare, Built, Declared, Usable, Advertises;
      candidates := [];
      if q.local.Some? && q.local.value.mode.Observe? {
        return Route(instanceId, true, None, -1.0), candidates;
      }
      var listed := ListCandidates(q);
      candidates := listed;
      var best := ChooseCapacityCandidate(less, listed);
      ChoiceOutscores(less, listed, instanceId, Table(), q, staleAfterMs, best);
      if best.None? {
        route := Route(instanceId, true, None, -1.0);
      } else {
        assert best.value in candidates;
        route := RouteTo(best.value, instanceId);
        if route.local {
          LocalTakesPart(best.value, instanceId, Table(), q, staleAfterMs);
        } else {
          assert IsPeerCandidate(best.value, Table(), q, staleAfterMs);
          assert peers[best.value.instanceId].Valid();
          RemoteTakesPart(best.value, Table(), q, staleAfterMs);
          DeclaredIsAdvertised(advertised, instanceId, normalizeUrl);
        }
      }
    }

    /** Every candidate, the local one first. */
    method ListCandidates(q: Query) returns (candidates: seq<Candidate>)
      requires Valid()
      ensures forall c :: c in candidates <==>
                IsLocalCandidate(c, instanceId, q) || IsPeerCandidate(c, Table(), q, staleAfterMs)
      ensures DistinctIds(candidates)
    {
      hide Scored, Eligible, Built, CapacityOk, Declared;
      var remote := ListPeers(q);
      candidates := [];
      if q.local.Some? && q.ready {
        var pool := BuildPoolCapacity(q.local.value);
        var here := ScoreCapacityCandidate(instanceId, true, None, pool, q.request);
        candidates := [here];
      }
      candidates := candidates + remote;
    }

    /** The loop over the peers. */
    method ListPeers(q: Query) returns (candidates: seq<Candidate>)
      requires Valid()
      ensures forall c :: c in candidates <==> IsPeerCandidate(c, Table(), q, staleAfterMs)
    {
      hide Scored, Eligible, CapacityOk, Declared;
      candidates := [];
      var remaining := peers.Keys;
      ghost var table := Table();
      while remaining != {}
        invariant remaining <= peers.Keys
        invariant forall c :: c in candidates <==>
                    c.instanceId !in remaining && IsPeerCandidate(c, table, q, staleAfterMs)
        decreases |remaining|
      {
        var id :| id in remaining;
        var known := Known(peers[id].peer.baseUrl, peers[id].snapshot, peers[id].refreshedAtMs);
        assert known == table[id];
        if Eligible(known, q, staleAfterMs) {
          var c :=
            ScoreCapacityCandidate(id, false, Some(known.baseUrl), known.snapshot.value.pools[q.poolName], q.request);
          candidates := candidates + [c];
        }
        remaining := remaining - {id};
      }
    }

    /** Every probe of the refresh has settled. */
    method EndRefresh()
      requires Valid() && refreshing && probing == {}
      modifies this`refreshing
      ensures Valid() && !refreshing
    {
      refreshing := false;
    }
  }

  lemma PoolsAreOk(raw: RawSnapshot, expected: string, s: Snapshot)
    requires ReadsSnapshot(raw, expected, s)
    ensures s.instanceId == expected && forall name <- s.pools :: CapacityOk(s.pools[name])
  {
    hide CapacityOk, Reads, Blank;
  }

  /** What is known after a topology: everything about a peer whose URL is unchanged, nothing about any other. */
  function Carried(was: map<string, Known>, declared: map<string, string>): map<string, Known> {
    map id <- declared ::
      if id in was && was[id].baseUrl == declared[id] then was[id] else Known(declared[id], None, None)
  }

  /**
   * The next peer map, over what was declared: the same object exactly when identifier and URL are
   * unchanged, an empty one otherwise.
   */
  ghost predicate Merged(was: map<string, CachedPeer>, declared: map<string, string>, next: map<string, CachedPeer>)
    reads next.Values
  {
    && next.Keys == declared.Keys
    && forall id <- next ::
         && next[id].peer == Peer(id, declared[id])
         && if id in was && was[id].peer == Peer(id, declared[id]) then next[id] == was[id]
            else next[id] !in was.Values && next[id].snapshot.None? && next[id].refreshedAtMs.None?
  }

  lemma NothingKnown()
    ensures TableOf(map[]) == map[]
  {
  }

  lemma MergedPeers(was: map<string, CachedPeer>, declared: map<string, string>, next: map<string, CachedPeer>)
    requires Merged(was, declared, next) && forall id <- was :: was[id].peer.id == id && was[id].Valid()
    ensures next.Keys == declared.Keys
    ensures forall id <- next :: next[id].peer.id == id && next[id].Valid()
    ensures UrlsOf(next) == declared
    ensures TableOf(next) == Carried(TableOf(was), declared)
  {
    forall id <- next
      ensures TableOf(next)[id] == Carried(TableOf(was), declared)[id]
    {
    }
  }

  lemma {:induction false} DeclaredFails(peers: seq<Peer>, i: nat, self: string, normalizeUrl: string -> Option<string>)
    requires i <= |peers| && Declared(peers[..i], self, normalizeUrl).None?
    ensures Declared(peers, self, normalizeUrl).None?
    decreases |peers|
  {
    hide Trim;
    if i == |peers| {
      assert peers[..i] == peers;
    } else {
      var n := |peers| - 1;
      assert peers[..n][..i] == peers[..i];
      DeclaredFails(peers[..n], i, self, normalizeUrl);
    }
  }

  // ---------- The topology that arrives with a poll ----------

  /**
   * What `parseRoutingTopology` lets through: identifiers are compared as they stand, and every
   * endpoint is already an origin.
   */
  predicate TopologyParsed(t: Topology, normalizeUrl: string -> Option<string>) {
    && SafeNat(t.revision)
    && (forall i | 0 <= i < |t.peers| ::
          !Blank(t.peers[i].id) && normalizeUrl(t.peers[i].baseUrl) == Some(t.peers[i].baseUrl))
    && (forall i, j | 0 <= i < j < |t.peers| :: t.peers[i].id != t.peers[j].id)
  }

  /** Two remote members that differ only by surrounding white space. */
  predicate TrimmedTwins(t: Topology, self: string) {
    exists i, j | 0 <= i < j < |t.peers| :: Remote(t.peers[i], self) && Trim(t.peers[i].id) == Trim(t.peers[j].id)
  }

  /** A parsed topology makes the router throw exactly when it has such twins. */
  lemma ParsedTopologyThrowsExactly(t: Topology, self: string, normalizeUrl: string -> Option<string>)
    requires TopologyParsed(t, normalizeUrl)
    ensures Usable(t.peers, self, normalizeUrl) <==> !TrimmedTwins(t, self)
  {
    hide Trim;
  }

  /** Such a topology exists: the parser accepts it and the router throws. */
  lemma TwinsSlipThrough(revision: nat, normalizeUrl: string -> Option<string>)
    requires revision <= MAX_SAFE_INTEGER && normalizeUrl("http://a") == Some("http://a")
    ensures var t := Topology(revision, [Peer("a", "http://a"), Peer("a ", "http://a")]);
            TopologyParsed(t, normalizeUrl) && TrimmedTwins(t, "b")
  {
    var t := Topology(revision, [Peer("a", "http://a"), Peer("a ", "http://a")]);
    assert "a "[..1] == "a";
    assert TrimLeft("a ") == "a " && TrimRight("a ") == "a";
    assert Trim("a") == "a" && Trim("a ") == "a";
    assert Remote(t.peers[0], "b") && Trim(t.peers[0].id) == Trim(t.peers[1].id);
  }
}
