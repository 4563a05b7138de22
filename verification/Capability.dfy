/** Capability tokens, the broker that issues, revokes, checks and delegates them, and their history. */
module Capability {
  import opened Results

  datatype ResourceType =
    | FileSystem | Network | Gpu | Usb | Audio | Input | Hardware | System | Ipc | Memory

  /** The source's eight permission bits; `mutate` is its `modify`. */
  datatype Permissions = Permissions(read: bool, write: bool, execute: bool, list: bool,
                                     create: bool, delete: bool, mutate: bool, delegate: bool)
  {
    predicate Covers(other: Permissions) {
      && (other.read ==> read)
      && (other.write ==> write)
      && (other.execute ==> execute)
      && (other.list ==> list)
      && (other.create ==> create)
      && (other.delete ==> delete)
      && (other.mutate ==> mutate)
      && (other.delegate ==> delegate)
    }

    function Intersect(other: Permissions): Permissions {
      Permissions(read && other.read, write && other.write, execute && other.execute, list && other.list,
                  create && other.create, delete && other.delete, mutate && other.mutate,
                  delegate && other.delegate)
    }
  }

  const NO_PERMISSIONS: Permissions := Permissions(false, false, false, false, false, false, false, false)

  datatype Token = Token(tokenId: nat, issuer: nat, subject: nat, resourceType: ResourceType, resourcePath: string,
                         permissions: Permissions, issuedAt: nat, expiresAt: nat, revoked: bool)
  {
    predicate IsLive(now: nat) {
      !revoked && now < expiresAt
    }
  }

  datatype Decision = Allowed | Denied | Revoked | Expired

  datatype AuditEntry = AuditEntry(timestamp: nat, subject: nat, resourceType: ResourceType, resourcePath: string,
                                   decision: Decision)

  datatype CapabilityError = NotFound | NotDelegatable | ExceedsSourcePermissions

  /** What a caller asks the broker: may `subject` use `path` with permissions `needs` at time `now`? */
  datatype Access = Access(subject: nat, resourceType: ResourceType, path: string, needs: Permissions, now: nat)

  datatype Broker = Broker(tokens: map<nat, Token>, nextTokenId: nat)

  const NEW_BROKER: Broker := Broker(map[], 1)

  // -------------------------------------------------- permissions, right by right

  datatype Right = CanRead | CanWrite | CanExecute | CanList | CanCreate | CanDelete | CanModify | CanDelegate

  predicate Has(p: Permissions, r: Right) {
    match r
    case CanRead => p.read
    case CanWrite => p.write
    case CanExecute => p.execute
    case CanList => p.list
    case CanCreate => p.create
    case CanDelete => p.delete
    case CanModify => p.mutate
    case CanDelegate => p.delegate
  }

  /** Covering is inclusion of rights. */
  lemma CoversIsInclusion(p: Permissions, q: Permissions)
    ensures p.Covers(q) <==> forall r: Right :: Has(q, r) ==> Has(p, r)
  {
    EachRight(p);
    EachRight(q);
    forall r: Right | p.Covers(q) && Has(q, r) ensures Has(p, r) {
      match r case _ =>
    }
    hide Has;
  }

  /** Intersecting is intersection of rights. */
  lemma IntersectIsIntersection(p: Permissions, q: Permissions, r: Right)
    ensures Has(p.Intersect(q), r) <==> Has(p, r) && Has(q, r)
  {
  }

  /** Nothing but rights tells permissions apart. */
  lemma SameRights(p: Permissions, q: Permissions)
    requires forall r: Right :: Has(p, r) <==> Has(q, r)
    ensures p == q
  {
    EachRight(p);
    EachRight(q);
    hide Has;
  }

  lemma EachRight(p: Permissions)
    ensures Has(p, CanRead) == p.read && Has(p, CanWrite) == p.write && Has(p, CanExecute) == p.execute
    ensures Has(p, CanList) == p.list && Has(p, CanCreate) == p.create && Has(p, CanDelete) == p.delete
    ensures Has(p, CanModify) == p.mutate && Has(p, CanDelegate) == p.delegate
  {
  }

  /** A trailing star grants every path with the prefix before it; any other path grants only itself. */
  predicate PathCovers(granted: string, requested: string) {
    if granted != "" && granted[|granted| - 1] == '*' then granted[..|granted| - 1] <= requested
    else granted == requested
  }

  /** A granted path with a star covers exactly the paths that go on from the prefix; any other covers itself. */
  lemma PathCoversIff(prefix: string, granted: string, requested: string)
    ensures PathCovers(prefix + "*", requested) <==> exists rest: string :: requested == prefix + rest
    ensures (granted == "" || granted[|granted| - 1] != '*') ==>
              (PathCovers(granted, requested) <==> granted == requested)
  {
    var g := prefix + "*";
    assert g[..|g| - 1] == prefix;
    if prefix <= requested {
      assert requested == prefix + requested[|prefix|..];
    }
  }

  predicate Matches(t: Token, a: Access) {
    t.subject == a.subject && t.resourceType == a.resourceType && PathCovers(t.resourcePath, a.path)
  }

  predicate Grants(t: Token, a: Access) {
    Matches(t, a) && t.IsLive(a.now) && t.permissions.Covers(a.needs)
  }

  /** The decision, independently of the order in which tokens are looked at. */
  ghost function Decide(tokens: map<nat, Token>, a: Access): Decision {
    if exists id | id in tokens :: Grants(tokens[id], a) then Allowed
    else if exists id | id in tokens :: Matches(tokens[id], a) && tokens[id].revoked then Revoked
    else if exists id | id in tokens :: Matches(tokens[id], a) && a.now >= tokens[id].expiresAt then Expired
    else Denied
  }

  /** Each decision, in terms of the tokens' own fields. */
  lemma DecideIff(tokens: map<nat, Token>, a: Access)
    ensures Decide(tokens, a) == Allowed <==>
      exists id | id in tokens ::
        && tokens[id].subject == a.subject && tokens[id].resourceType == a.resourceType
        && PathCovers(tokens[id].resourcePath, a.path)
        && !tokens[id].revoked && a.now < tokens[id].expiresAt
        && tokens[id].permissions.Covers(a.needs)
    ensures Decide(tokens, a) == Revoked <==>
      && Decide(tokens, a) != Allowed
      && exists id | id in tokens ::
           && tokens[id].subject == a.subject && tokens[id].resourceType == a.resourceType
           && PathCovers(tokens[id].resourcePath, a.path) && tokens[id].revoked
    ensures Decide(tokens, a) == Expired <==>
      && Decide(tokens, a) != Allowed && Decide(tokens, a) != Revoked
      && exists id | id in tokens ::
           && tokens[id].subject == a.subject && tokens[id].resourceType == a.resourceType
           && PathCovers(tokens[id].resourcePath, a.path) && tokens[id].expiresAt <= a.now
  {
    hide PathCovers;
    forall id | id in tokens
      ensures Grants(tokens[id], a) <==>
        && tokens[id].subject == a.subject && tokens[id].resourceType == a.resourceType
        && PathCovers(tokens[id].resourcePath, a.path)
        && !tokens[id].revoked && a.now < tokens[id].expiresAt
        && tokens[id].permissions.Covers(a.needs) {}
  }

  function IssueIn(b: Broker, issuer: nat, subject: nat, resourceType: ResourceType, path: string,
                 permissions: Permissions, now: nat, expiresAt: nat): Broker
  {
    var id := b.nextTokenId;
    Broker(b.tokens[id := Token(id, issuer, subject, resourceType, path, permissions, now, expiresAt, false)], id + 1)
  }

  function RevokeIn(b: Broker, id: nat): (Broker, Result<(), CapabilityError>) {
    if id !in b.tokens then (b, Err(NotFound))
    else (b.(tokens := b.tokens[id := b.tokens[id].(revoked := true)]), Ok(()))
  }

  function DelegateIn(b: Broker, source: nat, delegatee: nat, requested: Permissions, now: nat)
    : (Broker, Result<nat, CapabilityError>)
  {
    if source !in b.tokens || !b.tokens[source].IsLive(now) then (b, Err(NotFound))
    else
      var s := b.tokens[source];
      if !s.permissions.delegate then (b, Err(NotDelegatable))
      else if s.permissions.Intersect(requested) != requested then (b, Err(ExceedsSourcePermissions))
      else (IssueIn(b, s.subject, delegatee, s.resourceType, s.resourcePath, s.permissions.Intersect(requested), now,
                  s.expiresAt), Ok(b.nextTokenId))
  }

  ghost predicate Fresh(b: Broker) {
    forall id | id in b.tokens :: id < b.nextTokenId && b.tokens[id].tokenId == id
  }

  lemma IntersectIsRequestIffCovered(source: Permissions, requested: Permissions)
    ensures source.Intersect(requested) == requested <==> source.Covers(requested)
    ensures source.Covers(source.Intersect(requested)) && requested.Covers(source.Intersect(requested))
  {
  }

  lemma RevokeIsFlag(b: Broker, id: nat)
    ensures var (c, r) := RevokeIn(b, id);
      && (r.Ok? <==> id in b.tokens) && (r.Err? ==> r.error == NotFound && c == b)
      && c.nextTokenId == b.nextTokenId && c.tokens.Keys == b.tokens.Keys
      && (forall i | i in b.tokens :: c.tokens[i] == if i == id then b.tokens[i].(revoked := true) else b.tokens[i])
  {
  }

  /** Whether a token exists and is neither revoked nor expired. */
  predicate VerifyIn(b: Broker, id: nat, now: nat) {
    id in b.tokens && b.tokens[id].IsLive(now)
  }

  /**
   Delegation succeeds exactly when the source verifies, is delegatable and covers the request.
   What is added is a token like its source but for its parties, its time and its permissions,
   which are the ones requested.
   */
  lemma DelegateIffCovered(b: Broker, source: nat, delegatee: nat, requested: Permissions, now: nat)
    requires Fresh(b)
    ensures var (c, r) := DelegateIn(b, source, delegatee, requested, now);
      && Fresh(c)
      && (r == Err(NotFound) <==> !VerifyIn(b, source, now))
      && (r == Err(NotDelegatable) <==> VerifyIn(b, source, now) && !b.tokens[source].permissions.delegate)
      && (r.Ok? <==> VerifyIn(b, source, now)
                     && b.tokens[source].permissions.delegate && b.tokens[source].permissions.Covers(requested))
      && (r.Err? ==> c == b)
      && (r.Ok? ==>
            && r.value == b.nextTokenId && c.nextTokenId == b.nextTokenId + 1
            && r.value !in b.tokens && r.value in c.tokens && c.tokens - {r.value} == b.tokens
            && c.tokens[r.value] == b.tokens[source].(tokenId := r.value, issuer := b.tokens[source].subject,
                                                      subject := delegatee, permissions := requested,
                                                      issuedAt := now)
            && VerifyIn(c, r.value, now))
  {
    if source in b.tokens {
      IntersectIsRequestIffCovered(b.tokens[source].permissions, requested);
    }
    var (c, r) := DelegateIn(b, source, delegatee, requested, now);
    if r.Ok? {
      assert c.tokens - {r.value} == b.tokens;
    }
  }

  // ----------------------------------------------------------------- history

  datatype Call =
    | IssueCall(issuer: nat, subject: nat, resourceType: ResourceType, path: string, permissions: Permissions,
                at: nat, expiresAt: nat)
    | RevokeCall(id: nat)
    | DelegateCall(source: nat, delegatee: nat, requested: Permissions, now: nat)
    | CheckCall(access: Access)

  /** A broker together with where each delegated token came from; directly issued ones have no source. */
  datatype History = History(broker: Broker, source: map<nat, nat>)

  const NEW_HISTORY: History := History(NEW_BROKER, map[])

  function Apply(h: History, c: Call): History {
    match c
    case IssueCall(issuer, subject, rt, path, permissions, at, expiresAt) =>
      h.(broker := IssueIn(h.broker, issuer, subject, rt, path, permissions, at, expiresAt))
    case RevokeCall(id) => h.(broker := RevokeIn(h.broker, id).0)
    case DelegateCall(source, delegatee, requested, now) =>
      var (b, r) := DelegateIn(h.broker, source, delegatee, requested, now);
      if r.Ok? then History(b, h.source[r.value := source]) else h
    case CheckCall(_) => h
  }

  function Replay(h: History, calls: seq<Call>): History
    decreases |calls|
  {
    if calls == [] then h else Replay(Apply(h, calls[0]), calls[1..])
  }

  /** The call that made a token, read off the token. */
  function Origin(h: History, id: nat): Call
    requires id in h.broker.tokens
  {
    var t := h.broker.tokens[id];
    if id in h.source then DelegateCall(h.source[id], t.subject, t.permissions, t.issuedAt)
    else IssueCall(t.issuer, t.subject, t.resourceType, t.resourcePath, t.permissions, t.issuedAt, t.expiresAt)
  }

  ghost predicate MadeBy(h: History, calls: seq<Call>) {
    && Fresh(h.broker) && (forall id | id in h.source :: id in h.broker.tokens)
    && forall id | id in h.broker.tokens :: Origin(h, id) in calls
  }

  lemma ApplyKeepsMadeBy(h: History, past: seq<Call>, c: Call)
    requires MadeBy(h, past)
    ensures MadeBy(Apply(h, c), past + [c])
  {
    var g := Apply(h, c);
    if c.DelegateCall? {
      DelegateIffCovered(h.broker, c.source, c.delegatee, c.requested, c.now);
    }
    forall id | id in g.broker.tokens ensures Origin(g, id) in past + [c] {
      if id in h.broker.tokens {
        assert Origin(g, id) == Origin(h, id);
      } else {
        assert Origin(g, id) == c;
      }
    }
  }

  /** Every token there is was made by some call of the history, with just these properties. */
  lemma {:induction false} ReplayIsMadeBy(h: History, past: seq<Call>, calls: seq<Call>)
    requires MadeBy(h, past)
    ensures MadeBy(Replay(h, calls), past + calls)
    decreases |calls|
  {
    if calls == [] {
      assert past + calls == past;
    } else {
      ApplyKeepsMadeBy(h, past, calls[0]);
      ReplayIsMadeBy(Apply(h, calls[0]), past + [calls[0]], calls[1..]);
      assert past + [calls[0]] + calls[1..] == past + calls;
    }
  }

  /** A delegated token is no wider than its source in any respect, and its source carried the delegate bit. */
  ghost predicate DerivedFrom(t: Token, s: Token) {
    && t.issuer == s.subject
    && t.resourceType == s.resourceType && t.resourcePath == s.resourcePath && t.expiresAt == s.expiresAt
    && s.permissions.delegate && s.permissions.Covers(t.permissions)
  }

  ghost predicate Traced(h: History) {
    && Fresh(h.broker)
    && (forall id | id in h.source ::
          && id in h.broker.tokens && h.source[id] in h.broker.tokens && h.source[id] < id
          && DerivedFrom(h.broker.tokens[id], h.broker.tokens[h.source[id]]))
  }

  lemma ApplyKeepsTraced(h: History, c: Call)
    requires Traced(h)
    ensures Traced(Apply(h, c))
  {
    if c.DelegateCall? {
      DelegateIffCovered(h.broker, c.source, c.delegatee, c.requested, c.now);
    }
  }

  lemma {:induction false} ReplayKeepsTraced(h: History, calls: seq<Call>)
    requires Traced(h)
    ensures Traced(Replay(h, calls))
    decreases |calls|
  {
    if calls == [] {
    } else {
      ApplyKeepsTraced(h, calls[0]);
      ReplayKeepsTraced(Apply(h, calls[0]), calls[1..]);
    }
  }

  /** The delegation chain of a token, from the directly issued one to the token itself. */
  ghost function Chain(h: History, id: nat): (c: seq<nat>)
    requires Traced(h) && id in h.broker.tokens
    ensures c != [] && c[|c| - 1] == id
    decreases id
  {
    if id in h.source then Chain(h, h.source[id]) + [id] else [id]
  }

  ghost predicate SoundChain(h: History, c: seq<nat>, a: Access) {
    && c != [] && c[0] !in h.source
    && (forall i | 0 <= i < |c| ::
          && c[i] in h.broker.tokens
          && var t := h.broker.tokens[c[i]];
             t.resourceType == a.resourceType && PathCovers(t.resourcePath, a.path)
             && t.permissions.Covers(a.needs) && a.now < t.expiresAt)
    && (forall i | 0 < i < |c| ::
          && c[i] in h.source && h.source[c[i]] == c[i - 1]
          && DerivedFrom(h.broker.tokens[c[i]], h.broker.tokens[c[i - 1]]))
  }

  lemma {:induction false} ChainIsSound(h: History, id: nat, a: Access)
    requires Traced(h) && id in h.broker.tokens
    requires var t := h.broker.tokens[id];
      t.resourceType == a.resourceType && PathCovers(t.resourcePath, a.path)
      && t.permissions.Covers(a.needs) && a.now < t.expiresAt
    ensures SoundChain(h, Chain(h, id), a)
    decreases id
  {
    if id in h.source {
      ChainIsSound(h, h.source[id], a);
    }
  }

  /**
   No amplification: after any history of calls, whatever is allowed traces back, through
   delegations that each needed the delegate bit and kept type, path and expiry, to a
   directly issued token that already covered the request and has not expired.  Each token
   of the chain is the work of a call in the history, the first one of an issue.
   */
  lemma AllowedIsTraced(calls: seq<Call>, a: Access) returns (id: nat)
    requires Decide(Replay(NEW_HISTORY, calls).broker.tokens, a) == Allowed
    ensures var h := Replay(NEW_HISTORY, calls);
      && Traced(h) && id in h.broker.tokens && Grants(h.broker.tokens[id], a)
      && h.broker.tokens[id].subject == a.subject && !h.broker.tokens[id].revoked
      && SoundChain(h, Chain(h, id), a)
      && (forall i | 0 <= i < |Chain(h, id)| :: Origin(h, Chain(h, id)[i]) in calls)
      && var t := h.broker.tokens[Chain(h, id)[0]];
         IssueCall(t.issuer, t.subject, t.resourceType, t.resourcePath, t.permissions, t.issuedAt, t.expiresAt) in calls
  {
    ReplayKeepsTraced(NEW_HISTORY, calls);
    ReplayIsMadeBy(NEW_HISTORY, [], calls);
    assert [] + calls == calls;
    var h := Replay(NEW_HISTORY, calls);
    id :| id in h.broker.tokens && Grants(h.broker.tokens[id], a);
    ChainIsSound(h, id, a);
  }

  /** Calls only add tokens and set `revoked` flags. */
  ghost predicate Extends(before: Broker, after: Broker) {
    && before.nextTokenId <= after.nextTokenId
    && (forall id | id in before.tokens ::
          && id in after.tokens
          && after.tokens[id].(revoked := before.tokens[id].revoked) == before.tokens[id]
          && (before.tokens[id].revoked ==> after.tokens[id].revoked))
  }

  lemma {:induction false} ReplayExtends(h: History, calls: seq<Call>)
    requires Fresh(h.broker)
    ensures Fresh(Replay(h, calls).broker) && Extends(h.broker, Replay(h, calls).broker)
    decreases |calls|
  {
    if calls == [] {
    } else {
      var m := Apply(h, calls[0]);
      assert Fresh(m.broker) && Extends(h.broker, m.broker);
      ReplayExtends(m, calls[1..]);
    }
  }

  /** Revocation is final, and takes nothing else away: no later call makes the token grant anything again. */
  lemma RevocationIsFinal(h: History, id: nat, calls: seq<Call>, a: Access)
    requires Fresh(h.broker) && id in h.broker.tokens
    ensures var revoked := Apply(h, RevokeCall(id));
      var after := Replay(revoked, calls).broker;
      && id in after.tokens && after.tokens[id].revoked && !Grants(after.tokens[id], a)
      && (forall now: nat :: !VerifyIn(after, id, now))
      && (Decide(after.tokens, a) == Allowed ==>
            exists other | other in after.tokens :: other != id && Grants(after.tokens[other], a))
    ensures forall other | other in h.broker.tokens && other != id ::
      var revoked := Apply(h, RevokeCall(id)).broker.tokens;
      other in revoked && revoked[other] == h.broker.tokens[other]
  {
    var revoked := Apply(h, RevokeCall(id));
    ReplayExtends(revoked, calls);
    var after := Replay(revoked, calls).broker;
    if Decide(after.tokens, a) == Allowed {
      var other :| other in after.tokens && Grants(after.tokens[other], a);
      assert other != id;
    }
  }

  /** Only revoking it changes a token. */
  lemma {:induction false} TokenStays(h: History, id: nat, calls: seq<Call>)
    requires Fresh(h.broker) && id in h.broker.tokens && RevokeCall(id) !in calls
    ensures id in Replay(h, calls).broker.tokens
    ensures Replay(h, calls).broker.tokens[id] == h.broker.tokens[id]
    decreases |calls|
  {
    if calls != [] {
      assert calls[0] != RevokeCall(id);
      assert Fresh(Apply(h, calls[0]).broker);
      TokenStays(Apply(h, calls[0]), id, calls[1..]);
    }
  }

  /**
   What is issued holds: until it is revoked or expires, its subject is allowed everything
   it covers, whatever else happens in between.
   */
  lemma IssueGrants(h: History, issue: Call, calls: seq<Call>, a: Access)
    requires Fresh(h.broker) && issue.IssueCall? && RevokeCall(h.broker.nextTokenId) !in calls
    requires a.subject == issue.subject && a.resourceType == issue.resourceType && PathCovers(issue.path, a.path)
    requires a.now < issue.expiresAt && issue.permissions.Covers(a.needs)
    ensures Decide(Replay(Apply(h, issue), calls).broker.tokens, a) == Allowed
  {
    TokenStays(Apply(h, issue), h.broker.nextTokenId, calls);
    DecideIff(Replay(Apply(h, issue), calls).broker.tokens, a);
  }

  /** So does what is delegated, even after its source is revoked. */
  lemma DelegationGrants(h: History, source: nat, delegatee: nat, requested: Permissions, now: nat,
                         calls: seq<Call>, a: Access)
    requires Fresh(h.broker) && source in h.broker.tokens && RevokeCall(h.broker.nextTokenId) !in calls
    requires var s := h.broker.tokens[source];
      && !s.revoked && now < s.expiresAt && s.permissions.delegate && s.permissions.Covers(requested)
      && a.subject == delegatee && a.resourceType == s.resourceType && PathCovers(s.resourcePath, a.path)
      && a.now < s.expiresAt && requested.Covers(a.needs)
    ensures Decide(Replay(Apply(h, DelegateCall(source, delegatee, requested, now)), calls).broker.tokens, a) == Allowed
  {
    var g := Apply(h, DelegateCall(source, delegatee, requested, now));
    DelegateIffCovered(h.broker, source, delegatee, requested, now);
    TokenStays(g, h.broker.nextTokenId, calls);
    DecideIff(Replay(g, calls).broker.tokens, a);
  }

  // ------------------------------------------------------------ the broker

  class CapabilityBroker {
    var tokens: map<nat, Token>
    var auditLog: seq<AuditEntry>
    var nextTokenId: nat

    function View(): Broker
      reads this
    {
      Broker(tokens, nextTokenId)
    }

    ghost predicate Valid()
      reads this
    {
      Fresh(View())
    }

    constructor ()
      ensures Valid() && View() == NEW_BROKER && auditLog == []
    {
      tokens := map[];
      auditLog := [];
      nextTokenId := 1;
    }

    method Issue(issuer: nat, subject: nat, resourceType: ResourceType, path: string, permissions: Permissions,
                 now: nat, expiresAt: nat) returns (id: nat)
      requires Valid()
      modifies this`tokens, this`nextTokenId
      ensures Valid() && id == old(nextTokenId) && id !in old(tokens)
      ensures View() == IssueIn(old(View()), issuer, subject, resourceType, path, permissions, now, expiresAt)
      ensures nextTokenId == id + 1
      ensures tokens ==
        old(tokens)[id := Token(id, issuer, subject, resourceType, path, permissions, now, expiresAt, false)]
    {
      id := nextTokenId;
      nextTokenId := nextTokenId + 1;
      tokens := tokens[id := Token(id, issuer, subject, resourceType, path, permissions, now, expiresAt, false)];
    }

    method Revoke(id: nat) returns (r: Result<(), CapabilityError>)
      requires Valid()
      modifies this`tokens
      ensures Valid() && (View(), r) == RevokeIn(old(View()), id)
      ensures id in old(tokens) ==> r == Ok(()) && tokens == old(tokens)[id := old(tokens)[id].(revoked := true)]
      ensures id !in old(tokens) ==> r == Err(NotFound) && tokens == old(tokens)
    {
      if id !in tokens {
        return Err(NotFound);
      }
      tokens := tokens[id := tokens[id].(revoked := true)];
      return Ok(());
    }

    predicate Verify(id: nat, now: nat): (ok: bool)
      reads this
      ensures ok == VerifyIn(View(), id, now)
      ensures ok <==> id in tokens && !tokens[id].revoked && now < tokens[id].expiresAt
    {
      id in tokens && tokens[id].IsLive(now)
    }

    /** Records the decision and nothing else. */
    method CheckAccess(a: Access) returns (d: Decision)
      requires Valid()
      modifies this`auditLog
      ensures d == Decide(tokens, a)
      ensures d == Allowed <==>
        exists id | id in tokens ::
          && tokens[id].subject == a.subject && tokens[id].resourceType == a.resourceType
          && PathCovers(tokens[id].resourcePath, a.path)
          && !tokens[id].revoked && a.now < tokens[id].expiresAt
          && tokens[id].permissions.Covers(a.needs)
      ensures auditLog == old(auditLog) + [AuditEntry(a.now, a.subject, a.resourceType, a.path, d)]
    {
      d := Lookup(a);
      DecideIff(tokens, a);
      auditLog := auditLog + [AuditEntry(a.now, a.subject, a.resourceType, a.path, d)];
    }

    /** Tokens in ascending order of their ids, stopping at the first that grants the access. */
    method Lookup(a: Access) returns (d: Decision)
      requires Valid()
      ensures d == Decide(tokens, a)
    {
      var sawRevoked, sawExpired := false, false;
      for id := 0 to nextTokenId
        invariant forall i | i in tokens && i < id :: !Grants(tokens[i], a)
        invariant sawRevoked <==> exists i | i in tokens && i < id :: Matches(tokens[i], a) && tokens[i].revoked
        invariant sawExpired <==> exists i | i in tokens && i < id ::
                    Matches(tokens[i], a) && !tokens[i].revoked && a.now >= tokens[i].expiresAt
      {
        if id in tokens {
          var token := tokens[id];
          if Matches(token, a) {
            if token.revoked {
              sawRevoked := true;
            } else if a.now >= token.expiresAt {
              sawExpired := true;
            } else if token.permissions.Covers(a.needs) {
              return Allowed;
            }
          }
        }
      }
      if sawRevoked {
        return Revoked;
      } else if sawExpired {
        return Expired;
      }
      return Denied;
    }

    method Delegate(source: nat, delegatee: nat, requested: Permissions, now: nat)
      returns (r: Result<nat, CapabilityError>)
      requires Valid()
      modifies this`tokens, this`nextTokenId
      ensures Valid() && (View(), r) == DelegateIn(old(View()), source, delegatee, requested, now)
      ensures r.Ok? <==>
        && source in old(tokens) && !old(tokens)[source].revoked && now < old(tokens)[source].expiresAt
        && old(tokens)[source].permissions.delegate && old(tokens)[source].permissions.Covers(requested)
      ensures r.Ok? ==>
        && r.value == old(nextTokenId) && nextTokenId == old(nextTokenId) + 1
        && var s := old(tokens)[source];
           tokens == old(tokens)[r.value := Token(r.value, s.subject, delegatee, s.resourceType, s.resourcePath,
                                                  requested, now, s.expiresAt, false)]
      ensures r.Err? ==> View() == old(View())
    {
      DelegateIffCovered(View(), source, delegatee, requested, now);
      if source !in tokens {
        return Err(NotFound);
      }
      var s := tokens[source];
      if !s.IsLive(now) {
        return Err(NotFound);
      }
      if !s.permissions.delegate {
        return Err(NotDelegatable);
      }
      var granted := s.permissions.Intersect(requested);
      if granted != requested {
        return Err(ExceedsSourcePermissions);
      }
      var id := Issue(s.subject, delegatee, s.resourceType, s.resourcePath, granted, now, s.expiresAt);
      return Ok(id);
    }
  }
}
