/** Managed sessions: issue, touch, renew and revoke over a store that compares revision and digest when it writes.
    Every call brings the lifetimes its service was configured with, so configurations may change between calls. A
    credential names its session and a secret drawn in increasing order; the digest stored is that secret's number. */
module Sessions {
  import opened Basics

  datatype Lifetime = Lifetime(idle: int, absolute: int, renewAfter: int)

  /** What `sessionLifetime` accepts. */
  predicate LifetimeOk(l: Lifetime) {
    0 < l.renewAfter < l.idle <= l.absolute
  }

  datatype Credential = Credential(id: nat, secret: nat)

  datatype Session = Session(subject: string, digest: nat, revision: nat, issuedAt: int, expiresAt: int,
      idleTimeoutMs: int, renewAfterMs: int, lastActiveAt: int, renewedAt: int, revokedAt: Option<int>)

  datatype Kind = Touch | Renew

  /** A write the store is asked for; `base` is the record it was computed from. */
  datatype Mutation = Mutation(kind: Kind, id: nat, base: Session, now: int, next: Session)

  function Min(a: int, b: int): int { if a <= b then a else b }
  function Max(a: int, b: int): int { if a >= b then a else b }

  /** The time and revision part of `recordValid`. */
  predicate RecordValid(r: Session, now: int) {
    && r.revision > 0 && 0 <= r.issuedAt && r.idleTimeoutMs > 0 && r.renewAfterMs > 0
    && r.issuedAt <= r.renewedAt <= r.lastActiveAt <= now && r.issuedAt < r.expiresAt
    && (r.revokedAt.Some? ==> r.revokedAt.value >= r.issuedAt)
  }

  /** Until when a lookup accepts the record under some lifetimes. */
  function Expiry(r: Session, l: Lifetime): int {
    Min(r.expiresAt, Min(r.issuedAt + l.absolute, r.lastActiveAt + Min(r.idleTimeoutMs, l.idle)))
  }

  predicate Accepts(r: Session, secret: nat, l: Lifetime, now: int) {
    RecordValid(r, now) && r.digest == secret && r.revokedAt.None? && now < Expiry(r, l)
  }

  function Issued(subject: string, secret: nat, l: Lifetime, now: int): Session {
    Session(subject, secret, 1, now, now + l.absolute, l.idle, l.renewAfter, now, now, None)
  }

  predicate RenewalDue(r: Session, l: Lifetime, now: int) {
    now >= r.renewedAt + Max(r.renewAfterMs, l.renewAfter)
  }

  /** The record a touch or a renewal asks the store to keep. */
  function Next(kind: Kind, r: Session, secret: nat, l: Lifetime, now: int): Session {
    r.(digest := secret, revision := r.revision + 1, expiresAt := Min(r.expiresAt, r.issuedAt + l.absolute),
       idleTimeoutMs := Min(r.idleTimeoutMs, l.idle), renewAfterMs := Max(r.renewAfterMs, l.renewAfter),
       lastActiveAt := now, renewedAt := if kind.Renew? then now else r.renewedAt)
  }

  // ---- The store ----

  /** The condition of the store's one update, at its own clock. */
  predicate MayWrite(stored: Session, m: Mutation, clock: int) {
    && stored.revision == m.base.revision && stored.digest == m.base.digest && stored.revokedAt.None?
    && clock < stored.expiresAt && clock < stored.lastActiveAt + stored.idleTimeoutMs
    && clock < m.next.expiresAt && clock < stored.lastActiveAt + m.next.idleTimeoutMs
    && m.next.expiresAt <= stored.expiresAt && m.next.idleTimeoutMs <= stored.idleTimeoutMs
    && m.next.renewAfterMs >= stored.renewAfterMs && m.next.revision == stored.revision + 1
    && stored.lastActiveAt <= m.next.lastActiveAt <= clock && stored.renewedAt <= m.next.renewedAt <= clock
    && if m.kind.Renew? then clock >= stored.renewedAt + m.next.renewAfterMs
       else stored.digest == m.next.digest && stored.renewedAt == m.next.renewedAt
  }

  /** The columns that update sets; the others keep their value. */
  function Columns(stored: Session, next: Session): Session {
    stored.(digest := next.digest, revision := next.revision, lastActiveAt := next.lastActiveAt,
        renewedAt := next.renewedAt,
            expiresAt := next.expiresAt, idleTimeoutMs := next.idleTimeoutMs, renewAfterMs := next.renewAfterMs)
  }

  function Written(records: map<nat, Session>, m: Mutation, now: int): map<nat, Session> {
    if m.id in records && MayWrite(records[m.id], m, Max(m.now, now))
    then records[m.id := Columns(records[m.id], m.next)] else records
  }

  predicate Revocable(records: map<nat, Session>, id: nat) {
    id in records && records[id].revokedAt.None?
  }

  function Revoked(records: map<nat, Session>, id: nat, at: int): map<nat, Session> {
    if Revocable(records, id) then records[id := records[id].(revokedAt := Some(at))] else records
  }

  /** The administrator's revocation, of one revision only. */
  function RevokedRevision(records: map<nat, Session>, id: nat, expected: nat, at: int, now: int): map<nat, Session> {
    if Revocable(records, id) && records[id].revision == expected
    then records[id := records[id].(revokedAt := Some(Max(at, Max(records[id].issuedAt, now))),
        revision := expected + 1)]
    else records
  }

  // ---- Calls ----

  datatype Call =
    | Found(kind: Kind, credential: Credential, lifetime: Lifetime, base: Session, expiry: int)
    | Sending(credential: Credential, renewed: Credential, lifetime: Lifetime, change: Mutation)
    | Stored(credential: Credential, renewed: Credential, done: Mutation)
    | Leaving(id: nat, at: int)
    | Returned(was: Credential, now: Credential, expiresAt: int, rotated: bool)
    | Left
    | Unauthorized
    | NotDue

  datatype State = State(now: nat, nonce: nat, records: map<nat, Session>, calls: seq<Call>)

  function With(s: State, i: nat, c: Call): State
    requires i < |s.calls|
  {
    s.(calls := s.calls[i := c])
  }

  function Spawned(s: State, c: Call): State {
    s.(calls := s.calls + [c])
  }

  /** A session is stored under a fresh id with a fresh secret. */
  function IssuedState(s: State, subject: string, l: Lifetime): State {
    s.(nonce := s.nonce + 1, records := s.records[s.nonce := Issued(subject, s.nonce, l, s.now)])
  }

  /** The first stretch of touch and renew: the record as it is read now. */
  function LookedUp(s: State, kind: Kind, credential: Credential, l: Lifetime): State {
    var id := credential.id;
    Spawned(s, if id in s.records && Accepts(s.records[id], credential.secret, l, s.now)
               then Found(kind, credential, l, s.records[id], Expiry(s.records[id], l)) else Unauthorized)
  }

  /** The second stretch, once the subject is known to be active. */
  function Prepared(s: State, i: nat, subjectActive: bool): State
    requires i < |s.calls| && s.calls[i].Found?
  {
    var c := s.calls[i];
    if !subjectActive || s.now >= c.expiry then With(s, i, Unauthorized)
    else if c.kind.Renew? && !RenewalDue(c.base, c.lifetime, s.now) then With(s, i, NotDue)
    else
      var secret := if c.kind.Renew? then s.nonce else c.credential.secret;
      var m := Mutation(c.kind, c.credential.id, c.base, s.now, Next(c.kind, c.base, secret, c.lifetime, s.now));
      With(s, i, Sending(c.credential, Credential(c.credential.id, secret), c.lifetime, m)).(nonce := s.nonce + 1)
  }

  function Committed(s: State, i: nat): State
    requires i < |s.calls| && s.calls[i].Sending?
  {
    var c := s.calls[i];
    With(s, i, if c.change.id in s.records && MayWrite(s.records[c.change.id], c.change, Max(c.change.now, s.now))
               then Stored(c.credential, c.renewed, c.change) else Unauthorized)
      .(records := Written(s.records, c.change, s.now))
  }

  function Acknowledged(c: Call, now: int): Call
    requires c.Stored?
  {
    var until := Min(c.done.next.expiresAt, c.done.now + c.done.next.idleTimeoutMs);
    if now >= until then Unauthorized else Returned(c.credential, c.renewed, until, c.done.kind.Renew?)
  }

  function RevokeRead(s: State, credential: Credential): State {
    var id := credential.id;
    Spawned(s, if id in s.records && RecordValid(s.records[id], s.now) && s.records[id].digest == credential.secret
                  && s.records[id].revokedAt.None?
               then Leaving(id, s.now) else Unauthorized)
  }

  function RevokeCommitted(s: State, i: nat): State
    requires i < |s.calls| && s.calls[i].Leaving?
  {
    var c := s.calls[i];
    With(s, i, if Revocable(s.records, c.id) then Left else Unauthorized).(records := Revoked(s.records, c.id, c.at))
  }

  class SessionStore {
    var records: map<nat, Session>

    constructor ()
      ensures records == map[]
    {
      records := map[];
    }

    method Create(id: nat, record: Session)
      requires id !in records
      modifies this
      ensures records == old(records)[id := record]
    {
      records := records[id := record];
    }

    method Mutate(m: Mutation, now: int) returns (changed: bool)
      modifies this
      ensures changed <==> m.id in old(records) && MayWrite(old(records)[m.id], m, Max(m.now, now))
      ensures changed <==>
                && m.id in old(records)
                && var r, clock := old(records)[m.id], if m.now >= now then m.now else now;
                   && r.revision == m.base.revision && r.digest == m.base.digest && r.revokedAt == None
                   && clock < r.expiresAt && clock < m.next.expiresAt <= r.expiresAt
                   && clock < r.lastActiveAt + r.idleTimeoutMs && clock < r.lastActiveAt + m.next.idleTimeoutMs
                   && m.next.idleTimeoutMs <= r.idleTimeoutMs && r.renewAfterMs <= m.next.renewAfterMs
                   && m.next.revision == r.revision + 1
                   && r.lastActiveAt <= m.next.lastActiveAt <= clock && r.renewedAt <= m.next.renewedAt <= clock
                   && (m.kind == Renew ==> r.renewedAt + m.next.renewAfterMs <= clock)
                   && (m.kind == Touch ==> m.next.digest == r.digest && m.next.renewedAt == r.renewedAt)
      ensures records == Written(old(records), m, now)
    {
      var clock := if m.now >= now then m.now else now;
      if m.id !in records || !MayWrite(records[m.id], m, clock) { return false; }
      var next := m.next;
      records := records[m.id := records[m.id].(digest := next.digest, revision := next.revision)];
      records := records[m.id := records[m.id].(lastActiveAt := next.lastActiveAt, renewedAt := next.renewedAt)];
      records := records[m.id := records[m.id].(expiresAt := next.expiresAt, idleTimeoutMs := next.idleTimeoutMs,
                                                renewAfterMs := next.renewAfterMs)];
      changed := true;
    }

    method Revoke(id: nat, at: int) returns (changed: bool)
      modifies this
      ensures changed <==> Revocable(old(records), id)
      ensures records == Revoked(old(records), id, at)
    {
      if id !in records || records[id].revokedAt.Some? { return false; }
      records := records[id := records[id].(revokedAt := Some(at))];
      changed := true;
    }

    method RevokeRevision(id: nat, expected: nat, at: int, now: int) returns (changed: bool)
      modifies this
      ensures changed <==> Revocable(old(records), id) && old(records)[id].revision == expected
      ensures records == RevokedRevision(old(records), id, expected, at, now)
    {
      if id !in records || records[id].revision != expected || records[id].revokedAt.Some? { return false; }
      var latest := at;
      if latest < records[id].issuedAt { latest := records[id].issuedAt; }
      if latest < now { latest := now; }
      records := records[id := records[id].(revokedAt := Some(latest), revision := records[id].revision + 1)];
      changed := true;
    }
  }
}
