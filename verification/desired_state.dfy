/**
 * Reading a desired-state reply from JSON: the parsers of `src/latchflo.ts`, from `objectValue` up to
 * `parseDesiredState`. A reply is proved to be accepted exactly when it says a desired state that meets
 * every check, and to be read as that one.
 */
module DesiredStateParser {
  import opened Wrappers
  import opened Text
  import opened AdmissionPolicy
  import opened Json
  import opened Limits
  import opened AgentModel
  import Agent
  import opened Router

  // ---------- JSON ----------

  /** `unknownProperty` says whether the object has a property beside the four. */
  datatype RawClassLimits = RawClassLimits(
    protectedConcurrent: Entry, maxConcurrent: Entry, protectedInFlightTokens: Entry, maxInFlightTokens: Entry,
    unknownProperty: bool)

  datatype RawClass = RawClass(id: string, limits: Record<RawClassLimits>)

  datatype RawTokenBudget = RawTokenBudget(budget: Entry, highPriorityReserve: Entry)

  datatype RawLimits = RawLimits(
    revision: Entry, maxConcurrent: Entry, maxQueue: Entry,
    tokenBudget: Record<RawTokenBudget>, admissionClasses: Record<seq<RawClass>>)

  /** Strings are `None` when the field holds no string, timestamps when it holds none that can be parsed. */
  datatype RawGrant = RawGrant(
    instanceId: Option<string>, pool: Option<string>, controllerEpoch: Entry, revision: Entry,
    limits: Record<RawLimits>, issuedAt: Option<int>, expiresAt: Option<int>, grantId: Option<string>)

  datatype RawMember = RawMember(instanceId: Option<string>, endpoint: Option<string>)

  datatype RawTopology = RawTopology(revision: Entry, members: Record<seq<Record<RawMember>>>)

  datatype RawReply = RawReply(
    controllerEpoch: Entry, serverTime: Option<int>, heartbeatIntervalMs: Entry, pollIntervalMs: Entry,
    routingTopology: Record<RawTopology>, grants: Record<seq<Record<RawGrant>>>)

  /** A reply as read. */
  datatype Reply = Reply(desired: DesiredState, heartbeatIntervalMs: int, pollIntervalMs: int,
                         topology: Option<Topology>)

  // ---------- Single values ----------

  predicate AtLeastSafe(n: int, least: int) {
    least <= n <= MAX_SAFE_INTEGER
  }

  /** One class; `None` where a parser throws. */
  function ReadClass(raw: Record<RawClassLimits>): Option<ClassLimits> {
    if !raw.Record? || raw.value.unknownProperty then None
    else
      var r := raw.value;
      if r.protectedConcurrent.Unusable? || r.maxConcurrent.Unusable?
         || r.protectedInFlightTokens.Unusable? || r.maxInFlightTokens.Unusable? then None
      else
        Some(ClassLimits(ValueOf(r.protectedConcurrent), ValueOf(r.maxConcurrent),
                         ValueOf(r.protectedInFlightTokens), ValueOf(r.maxInFlightTokens)))
  }

  function ValueOf(e: Entry): Option<int> {
    if e.Integer? then Some(e.n) else None
  }

  predicate Says(e: Entry, n: Option<int>) {
    e == if n.None? then Omitted else Integer(n.value)
  }

  /** A class is read from an object with no other property, each of its limits from the property of that name. */
  lemma ReadClassExactly(raw: Record<RawClassLimits>, c: ClassLimits)
    ensures ReadClass(raw) == Some(c) <==>
              && raw.Record? && !raw.value.unknownProperty
              && Says(raw.value.protectedConcurrent, c.protectedConcurrent)
              && Says(raw.value.maxConcurrent, c.maxConcurrent)
              && Says(raw.value.protectedInFlightTokens, c.protectedInFlightTokens)
              && Says(raw.value.maxInFlightTokens, c.maxInFlightTokens)
  {
  }

  // ---------- Class tables ----------

  predicate ReadsClass(raw: RawClass, t: ClassTable) {
    && NormalizeClassId(raw.id).Some?
    && NormalizeClassId(raw.id).value in t
    && ReadClass(raw.limits) == Some(t[NormalizeClassId(raw.id).value])
  }

  ghost predicate Lists(entries: seq<RawClass>, id: ClassId) {
    exists i | 0 <= i < |entries| :: NormalizeClassId(entries[i].id) == Some(id)
  }

  /** Every entry is one class under its normalised identifier, no two share one, and there are no others. */
  ghost predicate ReadsTable(entries: seq<RawClass>, t: ClassTable) {
    && (forall i | 0 <= i < |entries| :: ReadsClass(entries[i], t))
    && (forall i, j | 0 <= i < j < |entries| :: NormalizeClassId(entries[i].id) != NormalizeClassId(entries[j].id))
    && (forall id <- t :: Lists(entries, id))
  }

  lemma ReadsTableOnce(entries: seq<RawClass>, a: ClassTable, b: ClassTable)
    requires ReadsTable(entries, a) && ReadsTable(entries, b)
    ensures a == b
  {
    hide NormalizeClassId, ReadClass;
    forall id <- a.Keys + b.Keys
      ensures id in a && id in b && a[id] == b[id]
    {
      assert Lists(entries, id);
      var i :| 0 <= i < |entries| && NormalizeClassId(entries[i].id) == Some(id);
      assert ReadsClass(entries[i], a) && ReadsClass(entries[i], b);
    }
  }

  lemma ReadsOneMore(entries: seq<RawClass>, i: nat, t: ClassTable, id: ClassId, c: ClassLimits)
    requires i < |entries| && ReadsTable(entries[..i], t) && id !in t
    requires NormalizeClassId(entries[i].id) == Some(id) && ReadClass(entries[i].limits) == Some(c)
    ensures ReadsTable(entries[..i + 1], t[id := c])
  {
    hide NormalizeClassId, ReadClass;
    var after := entries[..i + 1];
    forall j | 0 <= j <= i
      ensures ReadsClass(after[j], t[id := c])
    {
      if j < i {
        assert ReadsClass(entries[..i][j], t);
      }
    }
    hide ReadClass;
    forall j, k | 0 <= j < k <= i
      ensures NormalizeClassId(after[j].id) != NormalizeClassId(after[k].id)
    {
      assert ReadsClass(entries[..i][j], t);
    }
    forall k <- t[id := c]
      ensures Lists(after, k)
    {
      hide ReadsClass;
      ListsMore(entries, i, k);
    }
  }

  lemma ListsMore(entries: seq<RawClass>, i: nat, k: ClassId)
    requires i < |entries| && (Lists(entries[..i], k) || NormalizeClassId(entries[i].id) == Some(k))
    ensures Lists(entries[..i + 1], k)
  {
    hide NormalizeClassId;
    var after := entries[..i + 1];
    if NormalizeClassId(entries[i].id) == Some(k) {
      assert NormalizeClassId(after[i].id) == Some(k);
    } else {
      var j :| 0 <= j < i && NormalizeClassId(entries[..i][j].id) == Some(k);
      assert NormalizeClassId(after[j].id) == Some(k);
    }
  }

  /**
   * The loop of `parseAdmissionClasses`. Its check of a floor against its ceiling is made with the
   * others, in `ParseLimits`.
   */
  method ParseAdmissionClasses(entries: seq<RawClass>) returns (r: Option<ClassTable>)
    ensures forall t :: r == Some(t) <==> ReadsTable(entries, t)
  {
    hide NormalizeClassId, ReadClass, ReadsTable;
    var parsed: ClassTable := map[];
    assert ReadsTable(entries[..0], parsed) by {
      NothingToRead(entries);
    }
    for i := 0 to |entries|
      invariant ReadsTable(entries[..i], parsed)
    {
      var id, limits := NormalizeClassId(entries[i].id), ReadClass(entries[i].limits);
      if id.None? || id.value in parsed || limits.None? {
        Unreadable(entries, i, parsed);
        return None;
      }
      ReadsOneMore(entries, i, parsed, id.value, limits.value);
      parsed := parsed[id.value := limits.value];
    }
    assert entries[..|entries|] == entries;
    forall t | ReadsTable(entries, t)
      ensures t == parsed
    {
      ReadsTableOnce(entries, t, parsed);
    }
    return Some(parsed);
  }

  lemma NothingToRead(entries: seq<RawClass>)
    ensures ReadsTable(entries[..0], map[])
  {
  }

  lemma Unreadable(entries: seq<RawClass>, i: nat, parsed: ClassTable)
    requires i < |entries| && ReadsTable(entries[..i], parsed)
    requires var id := NormalizeClassId(entries[i].id);
             id.None? || id.value in parsed || ReadClass(entries[i].limits).None?
    ensures forall t :: !ReadsTable(entries, t)
  {
    hide NormalizeClassId, ReadClass;
    var id := NormalizeClassId(entries[i].id);
    if id.Some? && id.value in parsed {
      assert Lists(entries[..i], id.value);
      var j :| 0 <= j < i && NormalizeClassId(entries[..i][j].id) == id;
      assert NormalizeClassId(entries[j].id) == NormalizeClassId(entries[i].id);
    } else {
      assert forall t :: !ReadsClass(entries[i], t);
    }
  }

  // ---------- Limits ----------

  predicate ReadsBudget(raw: Record<RawTokenBudget>, b: Option<TokenBudget>) {
    if b.None? then raw.Undefined?
    else raw.Record? && raw.value == RawTokenBudget(Integer(b.value.budget), Integer(b.value.highPriorityReserve))
  }

  ghost predicate ReadsClasses(raw: Record<seq<RawClass>>, t: Option<ClassTable>) {
    if t.None? then raw.Undefined? else raw.Record? && ReadsTable(raw.value, t.value)
  }

  ghost predicate ReadsLimits(raw: Record<RawLimits>, l: AdmissionLimits) {
    && raw.Record?
    && raw.value.revision == Integer(l.revision)
    && raw.value.maxConcurrent == Integer(l.maxConcurrent)
    && raw.value.maxQueue == Integer(l.maxQueue)
    && ReadsBudget(raw.value.tokenBudget, l.tokenBudget)
    && ReadsClasses(raw.value.admissionClasses, l.admissionClasses)
  }

  method ReadLimits(raw: Record<RawLimits>) returns (r: Option<AdmissionLimits>)
    ensures forall l :: r == Some(l) <==> ReadsLimits(raw, l)
  {
    hide ReadsTable;
    if !raw.Record? || !raw.value.revision.Integer? || !raw.value.maxConcurrent.Integer?
       || !raw.value.maxQueue.Integer? {
      return None;
    }
    var tokenBudget: Option<TokenBudget> := None;
    if raw.value.tokenBudget.NotAnObject? {
      return None;
    } else if raw.value.tokenBudget.Record? {
      var b := raw.value.tokenBudget.value;
      if !b.budget.Integer? || !b.highPriorityReserve.Integer? {
        return None;
      }
      tokenBudget := Some(TokenBudget(b.budget.n, b.highPriorityReserve.n));
    }
    var classes: Option<ClassTable> := None;
    if raw.value.admissionClasses.NotAnObject? {
      return None;
    } else if raw.value.admissionClasses.Record? {
      classes := ParseAdmissionClasses(raw.value.admissionClasses.value);
      if classes.None? {
        return None;
      }
    }
    return Some(AdmissionLimits(raw.value.revision.n, raw.value.maxConcurrent.n, raw.value.maxQueue.n, tokenBudget,
                                classes));
  }

  // ---------- Grants ----------

  ghost predicate ReadsGrant(raw: Record<RawGrant>, g: Grant) {
    && raw.Record?
    && raw.value.instanceId == Some(g.instanceId)
    && raw.value.pool == Some(g.pool)
    && raw.value.controllerEpoch == Integer(g.controllerEpoch)
    && raw.value.revision == Integer(g.revision)
    && ReadsLimits(raw.value.limits, g.limits)
    && raw.value.issuedAt == Some(g.issuedAt)
    && raw.value.expiresAt == Some(g.expiresAt)
    && raw.value.grantId == Some(g.grantId)
  }

  method ReadGrant(raw: Record<RawGrant>) returns (r: Option<Grant>)
    ensures forall g :: r == Some(g) <==> ReadsGrant(raw, g)
  {
    hide ReadsLimits;
    if !raw.Record? {
      return None;
    }
    var v := raw.value;
    if v.instanceId.None? || v.pool.None? || v.grantId.None? || v.issuedAt.None? || v.expiresAt.None?
       || !v.controllerEpoch.Integer? || !v.revision.Integer? {
      return None;
    }
    var limits := ReadLimits(v.limits);
    if limits.None? {
      return None;
    }
    return Some(Grant(v.grantId.value, v.instanceId.value, v.pool.value, v.controllerEpoch.n, v.revision.n,
                      v.issuedAt.value, v.expiresAt.value, limits.value));
  }

  ghost predicate ReadsGrants(raw: seq<Record<RawGrant>>, grants: seq<Grant>) {
    |raw| == |grants| && forall i | 0 <= i < |raw| :: ReadsGrant(raw[i], grants[i])
  }

  /** The grants, in their order; one that cannot be read refuses them all. */
  method ReadGrants(raw: seq<Record<RawGrant>>) returns (r: Option<seq<Grant>>)
    ensures forall grants :: r == Some(grants) <==> ReadsGrants(raw, grants)
  {
    hide ReadsGrant;
    var grants: seq<Grant> := [];
    for i := 0 to |raw|
      invariant |grants| == i
      invariant forall j | 0 <= j < i :: OnlyGrant(raw[j], grants[j])
    {
      var g := ReadGrant(raw[i]);
      if g.None? {
        return None;
      }
      assert forall other :: g == Some(other) <==> other == g.value;
      grants := grants + [g.value];
    }
    forall other | ReadsGrants(raw, other)
      ensures other == grants
    {
      forall j | 0 <= j < |raw|
        ensures other[j] == grants[j]
      {
        assert OnlyGrant(raw[j], grants[j]);
      }
    }
    return Some(grants);
  }

  /** The raw grant is read as this one and no other. */
  ghost predicate OnlyGrant(raw: Record<RawGrant>, g: Grant) {
    forall other :: other == g <==> ReadsGrant(raw, other)
  }

  // ---------- Routing topologies ----------

  /** `stringValue`, and for the endpoint what its origin is. */
  predicate ReadsMember(raw: Record<RawMember>, p: Peer, normalizeUrl: string -> Option<string>) {
    && raw.Record?
    && raw.value.instanceId == Some(p.id) && !Blank(p.id)
    && raw.value.endpoint.Some? && !Blank(raw.value.endpoint.value)
    && normalizeUrl(raw.value.endpoint.value) == Some(p.baseUrl)
  }

  predicate ReadsTopology(raw: Record<RawTopology>, t: Topology, normalizeUrl: string -> Option<string>) {
    && raw.Record?
    && raw.value.revision == Integer(t.revision) && SafeNat(t.revision)
    && raw.value.members.Record?
    && ReadsMembers(raw.value.members.value, t.peers, normalizeUrl)
  }

  /** Members as they stand, and no identifier twice. */
  predicate ReadsMembers(raw: seq<Record<RawMember>>, peers: seq<Peer>, normalizeUrl: string -> Option<string>) {
    && |raw| == |peers|
    && (forall i | 0 <= i < |raw| :: ReadsMember(raw[i], peers[i], normalizeUrl))
    && (forall i, j | 0 <= i < j < |peers| :: peers[i].id != peers[j].id)
  }

  /** `parseRoutingTopology`. */
  method ParseRoutingTopology(raw: Record<RawTopology>, normalizeUrl: string -> Option<string>)
    returns (r: Option<Topology>)
    ensures forall t :: r == Some(t) <==> ReadsTopology(raw, t, normalizeUrl)
  {
    hide Blank;
    if !raw.Record? || !raw.value.revision.Integer? || !SafeNat(raw.value.revision.n) || !raw.value.members.Record? {
      return None;
    }
    var members := raw.value.members.value;
    var peers: seq<Peer> := [];
    for i := 0 to |members|
      invariant |peers| == i
      invariant forall j | 0 <= j < i :: ReadsMember(members[j], peers[j], normalizeUrl)
      invariant forall j, k | 0 <= j < k < i :: peers[j].id != peers[k].id
    {
      var m := members[i];
      if !m.Record? || m.value.instanceId.None? || Blank(m.value.instanceId.value)
         || m.value.endpoint.None? || Blank(m.value.endpoint.value) || normalizeUrl(m.value.endpoint.value).None? {
        assert forall p :: !ReadsMember(members[i], p, normalizeUrl);
        return None;
      }
      var peer := Peer(m.value.instanceId.value, normalizeUrl(m.value.endpoint.value).value);
      if exists j | 0 <= j < i :: peers[j].id == peer.id {
        var j :| 0 <= j < i && peers[j].id == peer.id;
        DuplicateMember(members, peers, j, i, normalizeUrl);
        return None;
      }
      peers := peers + [peer];
    }
    forall other | ReadsMembers(members, other, normalizeUrl)
      ensures other == peers
    {
      forall j | 0 <= j < |members|
        ensures other[j] == peers[j]
      {
        assert ReadsMember(members[j], other[j], normalizeUrl) && ReadsMember(members[j], peers[j], normalizeUrl);
      }
    }
    return Some(Topology(raw.value.revision.n, peers));
  }

  lemma DuplicateMember(members: seq<Record<RawMember>>, peers: seq<Peer>, j: nat, i: nat,
                        normalizeUrl: string -> Option<string>)
    requires j < i < |members| && i == |peers|
    requires ReadsMember(members[j], peers[j], normalizeUrl)
    requires members[i].Record? && members[i].value.instanceId == Some(peers[j].id)
    ensures forall other :: !ReadsMembers(members, other, normalizeUrl)
  {
    forall other: seq<Peer> | |other| == |members|
      ensures !ReadsMembers(members, other, normalizeUrl)
    {
      assert ReadsMember(members[j], other[j], normalizeUrl) && ReadsMember(members[i], other[i], normalizeUrl)
        ==> other[j].id == other[i].id;
    }
  }

  // ---------- The reply ----------

  ghost predicate ReadsReply(raw: Record<RawReply>, reply: Reply, normalizeUrl: string -> Option<string>) {
    && raw.Record?
    && raw.value.controllerEpoch == Integer(reply.desired.controllerEpoch)
    && raw.value.serverTime == Some(reply.desired.serverTime)
    && raw.value.heartbeatIntervalMs == Integer(reply.heartbeatIntervalMs) && AtLeastSafe(reply.heartbeatIntervalMs, 1)
    && raw.value.pollIntervalMs == Integer(reply.pollIntervalMs) && AtLeastSafe(reply.pollIntervalMs, 1)
    && (if reply.topology.None? then raw.value.routingTopology.Undefined?
        else ReadsTopology(raw.value.routingTopology, reply.topology.value, normalizeUrl))
    && raw.value.grants.Record?
    && ReadsGrants(raw.value.grants.value, reply.desired.grants)
  }

  /**
   * `parseDesiredState` on the JSON itself. The reply is accepted exactly when it says a desired state
   * that passes every check, with usable intervals and a topology that can be read, if there is one.
   */
  method ParseReply(c: Config, raw: Record<RawReply>, normalizeUrl: string -> Option<string>) returns (r: Option<Reply>)
    ensures forall reply :: r == Some(reply) <==> ReadsReply(raw, reply, normalizeUrl) && Parsed(c, reply.desired)
  {
    hide Parsed, ReadsGrants, ReadsTopology;
    if !raw.Record? || !raw.value.controllerEpoch.Integer? || raw.value.serverTime.None?
       || !raw.value.heartbeatIntervalMs.Integer? || !AtLeastSafe(raw.value.heartbeatIntervalMs.n, 1)
       || !raw.value.pollIntervalMs.Integer? || !AtLeastSafe(raw.value.pollIntervalMs.n, 1)
       || !raw.value.grants.Record? {
      return None;
    }
    var topology: Option<Topology> := None;
    NoTopology(normalizeUrl);
    if !raw.value.routingTopology.Undefined? {
      topology := ParseRoutingTopology(raw.value.routingTopology, normalizeUrl);
      if topology.None? {
        return None;
      }
    }
    var grants := ReadGrants(raw.value.grants.value);
    if grants.None? {
      return None;
    }
    var desired := DesiredState(raw.value.controllerEpoch.n, raw.value.serverTime.value, grants.value);
    var ok := Agent.ParseDesiredState(c, desired);
    if !ok {
      return None;
    }
    return Some(Reply(desired, raw.value.heartbeatIntervalMs.n, raw.value.pollIntervalMs.n, topology));
  }

  lemma NoTopology(normalizeUrl: string -> Option<string>)
    ensures forall t :: !ReadsTopology(Undefined, t, normalizeUrl)
  {
  }

  // ---------- What has been read ----------

  /** Class identifiers are normalised: reading a grant again changes none of them. */
  lemma ClassIdsAreNormal(entries: seq<RawClass>, t: ClassTable, id: ClassId)
    requires ReadsTable(entries, t) && id in t
    ensures NormalizeClassId(id) == Some(id)
  {
    assert Lists(entries, id);
    var i :| 0 <= i < |entries| && NormalizeClassId(entries[i].id) == Some(id);
    NormalizeIdempotent(entries[i].id);
  }

  /** A topology that was read is one the router can be asked about, if an origin is its own origin. */
  lemma ReadTopologyIsParsed(raw: Record<RawTopology>, t: Topology, normalizeUrl: string -> Option<string>)
    requires ReadsTopology(raw, t, normalizeUrl)
    requires forall url :: normalizeUrl(url).Some? ==> normalizeUrl(normalizeUrl(url).value) == normalizeUrl(url)
    ensures TopologyParsed(t, normalizeUrl)
  {
    hide Blank;
    forall i | 0 <= i < |t.peers|
      ensures !Blank(t.peers[i].id) && normalizeUrl(t.peers[i].baseUrl) == Some(t.peers[i].baseUrl)
    {
      assert ReadsMember(raw.value.members.value[i], t.peers[i], normalizeUrl);
    }
  }

  function Member(id: string, endpoint: string): Record<RawMember> {
    Record(RawMember(Some(id), Some(endpoint)))
  }

  /** From the JSON to the throw: two members that differ by one blank are read, and the router refuses them. */
  lemma TwinsAreRead(revision: nat, normalizeUrl: string -> Option<string>)
    requires revision <= MAX_SAFE_INTEGER && normalizeUrl("http://a") == Some("http://a")
    ensures var members := [Member("a", "http://a"), Member("a ", "http://a")];
            var t := Topology(revision, [Peer("a", "http://a"), Peer("a ", "http://a")]);
            && ReadsTopology(Record(RawTopology(Integer(revision), Record(members))), t, normalizeUrl)
            && !Usable(t.peers, "b", normalizeUrl)
  {
    hide Usable, TrimmedTwins;
    TwinsSlipThrough(revision, normalizeUrl);
    ParsedTopologyThrowsExactly(Topology(revision, [Peer("a", "http://a"), Peer("a ", "http://a")]), "b", normalizeUrl);
    assert !Blank("http://a") by {
      assert TrimLeft("http://a") == "http://a";
    }
  }
}
