/** Every run of the authorization server, with any number of calls under way and records pruned at any time. */
module OAuthRuns {
  import opened Basics
  import opened OAuthServer

  datatype Action =
    | Tick(ms: nat)
    | Begin(client: string, redirect: string, challenge: Hash, scopes: seq<string>)
    | OpenConsent(request: Hash, actor: string, decision: Option<bool>)
    | Permit(thread: nat, permissions: Option<seq<string>>)
    | View(thread: nat, clientOk: bool)
    | Commit(thread: nat)
    | Acknowledge(thread: nat)
    | InsertGrant(thread: nat)
    | InsertCode(thread: nat)
    | PresentCode(code: Token, client: string, redirect: string, verifier: string)
    | ReadGrant(thread: nat)
    | PresentRefresh(refresh: Token, client: string, wanted: Option<seq<string>>)
    | RevokeGrant(id: nat, actor: string)
    | RevokeToken(token: Token, client: string)
    | Lose(thread: nat, written: bool)
    | ReadAgain(thread: nat)
    | Prune(before: int, requests: set<Hash>, codes: set<Hash>, grants: set<nat>)

  /** Whether a thread is waiting for the store to answer a conditional write, or has just been answered. */
  predicate Writing(t: Thread) {
    t.Revoking? || ((t.Asking? || t.Spending? || t.Minting?) && !t.acknowledged)
  }

  predicate Written(t: Thread) {
    (t.Asking? || t.Spending? || t.Minting?) && t.acknowledged
  }

  predicate Enabled(s: State, a: Action) {
    match a
    case Permit(i, _) =>
      i < |s.threads| && (s.threads[i].Consenting? || s.threads[i].Exchanging? || s.threads[i].Refreshing?)
    case View(i, _) => i < |s.threads| && s.threads[i].Consented?
    case Commit(i) => i < |s.threads| && Writing(s.threads[i])
    case Acknowledge(i) => i < |s.threads| && Written(s.threads[i])
    case InsertGrant(i) => i < |s.threads| && s.threads[i].Granting?
    case InsertCode(i) => i < |s.threads| && s.threads[i].Coding?
    case ReadGrant(i) => i < |s.threads| && s.threads[i].Redeeming?
    case Lose(i, _) => i < |s.threads| && s.threads[i].Revoking? && s.threads[i].later.Check?
    case ReadAgain(i) => i < |s.threads| && s.threads[i].Rereading?
    case _ => true
  }

  function Step(s: State, a: Action): State
    requires Enabled(s, a)
  {
    match a
    case Tick(ms) => s.(now := s.now + ms)
    case Begin(client, redirect, challenge, scopes) => BegunState(s, client, redirect, challenge, scopes)
    case OpenConsent(request, actor, decision) => ConsentOpened(s, request, actor, decision)
    case Permit(i, permissions) =>
      if s.threads[i].Consenting? then With(s, i, Narrowed(s.threads[i], permissions, s.now))
      else if s.threads[i].Exchanging? then With(s, i, ExchangePermitted(s.threads[i], permissions, s.now))
      else RefreshPermitted(s, i, permissions)
    case View(i, clientOk) => With(s, i, Viewing(s.threads[i], clientOk, s.now))
    case Commit(i) =>
      if s.threads[i].Asking? then AskCommitted(s, i)
      else if s.threads[i].Spending? then CodeCommitted(s, i)
      else if s.threads[i].Minting? then MintCommitted(s, i)
      else RevokeCommitted(s, i)
    case Acknowledge(i) =>
      if s.threads[i].Asking? then With(s, i, AskDone(s.threads[i], s.now))
      else if s.threads[i].Spending? then CodeDone(s, i)
      else With(s, i, MintDone(s.threads[i], s.now))
    case InsertGrant(i) => GrantInserted(s, i)
    case InsertCode(i) => CodeInserted(s, i)
    case PresentCode(code, client, redirect, verifier) => CodePresented(s, code, client, redirect, verifier)
    case ReadGrant(i) => GrantRead(s, i)
    case PresentRefresh(refresh, client, wanted) => RefreshOpened(s, refresh, client, wanted)
    case RevokeGrant(id, actor) => RevokeOpened(s, id, actor)
    case RevokeToken(token, client) => TokenRevokeOpened(s, token, client)
    case Lose(i, written) => RevokeLost(s, i, written)
    case ReadAgain(i) => Reread(s, i)
    case Prune(before, requests, codes, grants) => Pruned(s, before, requests, codes, grants)
  }

  // ---- How the store moves on ----

  predicate Known(h: Hash, nonce: nat) {
    h.Digest? && h.token.nonce < nonce
  }

  /** A record is the same or has a higher revision. */
  ghost predicate Moves<V(!new)>(a: Record<V>, b: Record<V>) {
    a == b || a.revision < b.revision
  }

  ghost predicate GrantMoves(a: Grant, b: Grant) {
    && (a.revoked ==> b.revoked) && All(b.scopes, a.scopes) && a.usedRefresh <= b.usedRefresh
    && a.subject == b.subject && a.client == b.client && a.expiresAt == b.expiresAt
  }

  ghost predicate RequestsMove(s: State, t: State) {
    forall k | k in t.requests && Known(k, s.nonce) ::
      && k in s.requests && Moves(s.requests[k], t.requests[k])
      && (s.requests[k].value.used ==> t.requests[k].value.used)
  }

  ghost predicate CodesMove(s: State, t: State) {
    forall k | k in t.codes && Known(k, s.nonce) ::
      k in s.codes && Moves(s.codes[k], t.codes[k]) && (s.codes[k].value.used ==> t.codes[k].value.used)
  }

  ghost predicate GrantsMove(s: State, t: State) {
    forall id | id in t.grants && id < s.nonce ::
      id in s.grants && Moves(s.grants[id], t.grants[id]) && GrantMoves(s.grants[id].value, t.grants[id].value)
  }

  ghost predicate MemoryMoves(s: State, t: State) {
    && s.nonce <= t.nonce && s.now <= t.now && s.resource == t.resource
    && (forall k | k in s.begun :: k in t.begun && t.begun[k] == s.begun[k])
    && (forall id | id in s.approvals :: id in t.approvals && t.approvals[id] == s.approvals[id])
  }

  ghost predicate Later(s: State, t: State) {
    MemoryMoves(s, t) && RequestsMove(s, t) && CodesMove(s, t) && GrantsMove(s, t)
  }

  lemma LaterTransitive(s: State, t: State, u: State)
    requires Later(s, t) && Later(t, u)
    ensures Later(s, u)
  {
    assert forall k | Known(k, s.nonce) :: Known(k, t.nonce);
    forall id | id in u.grants && id < s.nonce ensures GrantMoves(s.grants[id].value, u.grants[id].value) {
      assert id in t.grants && id in s.grants;
      assert GrantMoves(s.grants[id].value, t.grants[id].value) && GrantMoves(t.grants[id].value, u.grants[id].value);
    }
  }

  // ---- What holds of every stored record ----

  ghost predicate GrantOk(s: State, id: nat, r: Record<Grant>) {
    && r.expiresAt == r.value.expiresAt && r.value.accessExpiresAt <= r.value.expiresAt
    && |r.value.usedRefresh| <= MAX_ROTATIONS && r.value.refreshHash !in r.value.usedRefresh
    && (r.value.refreshHash == NoHash || Known(r.value.refreshHash, s.nonce))
    && (forall h | h in r.value.usedRefresh :: Known(h, s.nonce))
    && id < s.nonce && id in s.approvals && s.approvals[id].subject == r.subject == r.value.subject
    && All(r.value.scopes, s.approvals[id].scopes)
  }

  ghost predicate PendingOk(s: State, request: Hash, p: Pending) {
    Known(request, s.nonce) && request in s.begun && All(p.scopes, s.begun[request])
  }

  ghost predicate StoreOk(s: State) {
    && (forall k | k in s.requests :: PendingOk(s, k, s.requests[k].value))
    && (forall k | k in s.codes :: Known(k, s.nonce))
    && (forall id {:trigger GrantOk(s, id, s.grants[id])} | id in s.grants :: GrantOk(s, id, s.grants[id]))
    && (forall id {:trigger ApprovalOk(s, s.approvals[id])} | id in s.approvals :: ApprovalOk(s, s.approvals[id]))
    && (forall id | id in s.approvals :: id < s.nonce)
    && (forall k | k in s.begun :: Known(k, s.nonce))
  }

  /** An approval grants no more than its request asked for. */
  ghost predicate ApprovalOk(s: State, a: Approval) {
    && Known(a.request, s.nonce) && a.request in s.begun && All(a.scopes, s.begun[a.request])
    && Gone(s, Approving(a.request))
  }

  // ---- What a call may still believe ----

  /** If the record read is still at that revision, it is still that record. */
  ghost predicate Fresh<K(!new), V(!new)>(store: map<K, Record<V>>, k: K, base: Record<V>) {
    k in store ==> base.revision <= store[k].revision && (base.revision == store[k].revision ==> store[k] == base)
  }

  ghost predicate AskOk(s: State, request: Hash, asked: Record<Pending>) {
    PendingOk(s, request, asked.value) && !asked.value.used && Fresh(s.requests, request, asked)
  }

  ghost predicate CodeOk(s: State, code: Token, read: Record<Code>) {
    Known(Digest(code), s.nonce) && !read.value.used && Fresh(s.codes, Digest(code), read)
  }

  ghost predicate BaseOk(s: State, id: nat, base: Record<Grant>) {
    GrantOk(s, id, base) && Fresh(s.grants, id, base)
  }

  /** The tokens a call is about to store or has stored. */
  ghost predicate MintOk(s: State, credential: Credential, id: nat, base: Record<Grant>, next: Grant) {
    && GrantOk(s, id, base.(value := next)) && !base.value.revoked && GrantMoves(base.value, next)
    && (credential.ByCode? ==> Known(Digest(credential.token), s.nonce))
    && (credential.ByRefresh? ==>
          && credential.token.grant == id && base.value.refreshHash == Digest(credential.token)
          && Digest(credential.token) in next.usedRefresh && Digest(credential.token) !in base.value.usedRefresh)
  }

  ghost predicate AskingOk(s: State, t: Thread)
    requires t.Asking?
  {
    && PendingOk(s, t.request, t.change.value)
    && (if t.acknowledged then Fresh(s.requests, t.request, Saved(t.asked, t.change)) else AskOk(s, t.request, t.asked))
    && (if t.purpose.Narrow? then !t.change.value.used else t.change.value.used)
    && t.change.subject == t.actor
  }

  ghost predicate ThreadOk(s: State, t: Thread) {
    match t
    case Consenting(request, actor, _, asked) => AskOk(s, request, asked)
        && (asked.subject == "" || asked.subject == actor)
    case Asking(_, _, _, _, _, _, _) => AskingOk(s, t)
    case Consented(request, actor, _, asked) => AskOk(s, request, asked) && asked.subject == actor
    case Granting(request, _, approved) => PendingOk(s, request, approved)
    case Redeeming(code, read) => CodeOk(s, code, read)
    case Exchanging(code, read, base) =>
      CodeOk(s, code, read) && BaseOk(s, read.value.grant, base) && !base.value.revoked
    case Spending(code, read, base, done) =>
      && (done || CodeOk(s, code, read)) && Known(Digest(code), s.nonce)
      && BaseOk(s, read.value.grant, base) && !base.value.revoked
    case Refreshing(refresh, _, base) =>
      BaseOk(s, refresh.grant, base) && !base.value.revoked && base.value.refreshHash == Digest(refresh)
    case Minting(credential, id, base, next, access, refresh, done) =>
      && MintOk(s, credential, id, base, next) && (done || BaseOk(s, id, base))
      && next.accessHash == Digest(access) && next.refreshHash == Digest(refresh) && access.grant == id
    case Revoking(id, base, _) => BaseOk(s, id, base)
    case Answered(_, access, _) => access.grant < s.nonce
    case _ => true
  }

  // ---- What can be had once only ----

  /** A request being approved, or a credential being turned into tokens. */
  datatype Claim = Approving(request: Hash) | Holding(credential: Credential)

  /** The one-time thing a call has won. */
  function ClaimOf(t: Thread): Option<Claim> {
    match t
    case Asking(request, _, _, purpose, _, _, done) =>
      if purpose.Decide? && done then Some(Approving(request)) else None
    case Granting(request, _, _) => Some(Approving(request))
    case Spending(code, _, _, done) => if done then Some(Holding(ByCode(code))) else None
    case Minting(credential, _, _, _, _, _, done) =>
      if done || credential.ByCode? then Some(Holding(credential)) else None
    case Answered(credential, _, _) => Some(Holding(credential))
    case _ => None
  }

  /** The store shows that nobody can win this any more. */
  ghost predicate Gone(s: State, c: Claim) {
    match c
    case Approving(request) =>
      Known(request, s.nonce) && (request in s.requests ==> s.requests[request].value.used)
    case Holding(ByCode(code)) =>
      Known(Digest(code), s.nonce) && (Digest(code) in s.codes ==> s.codes[Digest(code)].value.used)
    case Holding(ByRefresh(refresh)) =>
      && refresh.grant < s.nonce
      && (refresh.grant in s.grants ==> Digest(refresh) in s.grants[refresh.grant].value.usedRefresh)
  }

  lemma GoneStays(s: State, t: State, c: Claim)
    requires Gone(s, c) && Later(s, t)
    ensures Gone(t, c)
  {
    if c.Holding? && c.credential.ByRefresh? {
      var id := c.credential.token.grant;
      if id in t.grants { assert GrantMoves(s.grants[id].value, t.grants[id].value); }
    }
  }

  ghost predicate ClaimsOk(s: State) {
    && (forall i {:trigger ClaimOf(s.threads[i])} | 0 <= i < |s.threads| :: ClaimGone(s, ClaimOf(s.threads[i])))
    && (forall i, j {:trigger ClaimOf(s.threads[i]), ClaimOf(s.threads[j])} | 0 <= i < j < |s.threads| ::
          ClaimOf(s.threads[i]).None? || ClaimOf(s.threads[i]) != ClaimOf(s.threads[j]))
    && (forall id, i {:trigger s.approvals[id], ClaimOf(s.threads[i])} | id in s.approvals && 0 <= i < |s.threads| ::
          ClaimOf(s.threads[i]) != Some(Approving(s.approvals[id].request)))
    && (forall id, other | id in s.approvals && other in s.approvals && id != other ::
          s.approvals[id].request != s.approvals[other].request)
  }

  ghost predicate ClaimGone(s: State, c: Option<Claim>) {
    c.Some? ==> Gone(s, c.value)
  }

  /** No call wins what the store already shows as gone. */
  ghost predicate Wins(s: State, t: State) {
    forall i {:trigger ClaimOf(t.threads[i])} | 0 <= i < |t.threads| ::
      WinsAt(s, i, ClaimOf(t.threads[i]))
  }

  ghost predicate WinsAt(s: State, i: nat, c: Option<Claim>) {
    c.None? || (i < |s.threads| && c == ClaimOf(s.threads[i])) || !Gone(s, c.value)
  }

  /** The number a call's new tokens carry. */
  function Drawn(t: Thread): Option<nat> {
    if t.Minting? || t.Answered? then Some(t.access.nonce) else None
  }

  /** No two calls draw the same tokens. */
  ghost predicate DrawnOnce(s: State) {
    && (forall i {:trigger Drawn(s.threads[i])} | 0 <= i < |s.threads| && Drawn(s.threads[i]).Some? ::
          Drawn(s.threads[i]).value < s.nonce)
    && (forall i, j {:trigger Drawn(s.threads[i]), Drawn(s.threads[j])} | 0 <= i < j < |s.threads| ::
          Drawn(s.threads[i]).None? || Drawn(s.threads[i]) != Drawn(s.threads[j]))
  }

  ghost predicate Draws(s: State, t: State, i: nat, th: Thread) {
    Drawn(th).None? || (i < |s.threads| && Drawn(th) == Drawn(s.threads[i]))
        || (Drawn(th) == Some(s.nonce) && s.nonce < t.nonce)
  }

  ghost predicate ThreadsOk(s: State) {
    forall i {:trigger ThreadOk(s, s.threads[i])} | 0 <= i < |s.threads| :: ThreadOk(s, s.threads[i])
  }

  ghost predicate Inv(s: State) {
    StoreOk(s) && ThreadsOk(s) && ClaimsOk(s) && DrawnOnce(s)
  }

  /** What one step owes. */
  ghost predicate Follows(s: State, t: State) {
    Inv(t) && Later(s, t) && Wins(s, t)
  }

  lemma ClaimGoneStays(s: State, t: State, c: Option<Claim>)
    requires ClaimGone(s, c) && Later(s, t)
    ensures ClaimGone(t, c)
  {
    if c.Some? { GoneStays(s, t, c.value); }
  }

  // ---- A call's beliefs survive what others do ----

  lemma GrantOkStays(s: State, t: State, id: nat, r: Record<Grant>)
    requires GrantOk(s, id, r) && Later(s, t)
    ensures GrantOk(t, id, r)
  {
  }

  lemma BaseOkStays(s: State, t: State, id: nat, base: Record<Grant>)
    requires BaseOk(s, id, base) && Later(s, t)
    ensures BaseOk(t, id, base)
  {
    GrantOkStays(s, t, id, base);
  }

  lemma ThreadStays(s: State, t: State, th: Thread)
    requires ThreadOk(s, th) && Later(s, t)
    ensures ThreadOk(t, th)
  {
    match th
    case Exchanging(_, read, base) => BaseOkStays(s, t, read.value.grant, base);
    case Spending(_, read, base, _) => BaseOkStays(s, t, read.value.grant, base);
    case Refreshing(refresh, _, base) => BaseOkStays(s, t, refresh.grant, base);
    case Minting(credential, id, base, next, _, _, done) =>
      GrantOkStays(s, t, id, base.(value := next));
      if !done { BaseOkStays(s, t, id, base); }
    case Revoking(id, base, _) => BaseOkStays(s, t, id, base);
    case _ =>
  }

  /** One call moves, the others do not; it may win something nobody has won. */
  lemma OneMoves(s: State, t: State, i: nat)
    requires Inv(s) && Later(s, t) && StoreOk(t) && t.approvals == s.approvals
    requires i < |t.threads| && |s.threads| <= |t.threads| <= |s.threads| + 1
             && (|t.threads| > |s.threads| ==> i == |s.threads|)
    requires forall j | 0 <= j < |s.threads| && j != i :: t.threads[j] == s.threads[j]
    requires ThreadOk(t, t.threads[i])
    requires var c := ClaimOf(t.threads[i]);
             c.None? || (i < |s.threads| && c == ClaimOf(s.threads[i])) || (!Gone(s, c.value) && Gone(t, c.value))
    requires Draws(s, t, i, t.threads[i])
    ensures Follows(s, t)
  {
    forall j | 0 <= j < |t.threads| ensures ThreadOk(t, t.threads[j]) {
      if j != i { ThreadStays(s, t, s.threads[j]); }
    }
    forall j | 0 <= j < |t.threads| ensures ClaimGone(t, ClaimOf(t.threads[j])) {
      if j < |s.threads| && ClaimOf(t.threads[j]) == ClaimOf(s.threads[j]) {
        ClaimGoneStays(s, t, ClaimOf(s.threads[j]));
      }
    }
    forall id | id in t.approvals ensures ClaimOf(t.threads[i]) != Some(Approving(t.approvals[id].request)) {
      assert ApprovalOk(s, s.approvals[id]);
    }
  }

  lemma NobodyMoves(s: State, t: State)
    requires Inv(s) && Later(s, t) && StoreOk(t) && t.approvals == s.approvals && t.threads == s.threads
    ensures Follows(s, t)
  {
    forall j | 0 <= j < |t.threads| ensures ThreadOk(t, t.threads[j]) { ThreadStays(s, t, s.threads[j]); }
    forall j | 0 <= j < |t.threads| ensures ClaimGone(t, ClaimOf(t.threads[j])) {
      ClaimGoneStays(s, t, ClaimOf(s.threads[j]));
    }
  }

  ghost predicate SameStore(s: State, t: State) {
    && t.requests == s.requests && t.codes == s.codes && t.grants == s.grants && t.begun == s.begun
    && t.approvals == s.approvals && t.resource == s.resource && s.nonce <= t.nonce && s.now <= t.now
  }

  lemma SameStoreIsLater(s: State, t: State)
    requires StoreOk(s) && SameStore(s, t)
    ensures Later(s, t) && StoreOk(t)
  {
    assert Later(s, t);
    forall id | id in t.grants ensures GrantOk(t, id, t.grants[id]) { GrantOkStays(s, t, id, s.grants[id]); }
    forall id | id in t.approvals ensures ApprovalOk(t, t.approvals[id]) { ApprovalStays(s, t, s.approvals[id]); }
  }

  lemma ApprovalStays(s: State, t: State, a: Approval)
    requires ApprovalOk(s, a) && Later(s, t)
    ensures ApprovalOk(t, a)
  {
    GoneStays(s, t, Approving(a.request));
  }

  /** A step that only moves one call on and leaves the store alone. */
  lemma CallMoves(s: State, t: State, i: nat)
    requires Inv(s) && SameStore(s, t)
    requires i < |t.threads| && |s.threads| <= |t.threads| <= |s.threads| + 1
             && (|t.threads| > |s.threads| ==> i == |s.threads|)
    requires forall j | 0 <= j < |s.threads| && j != i :: t.threads[j] == s.threads[j]
    requires ThreadOk(t, t.threads[i])
    requires ClaimOf(t.threads[i]).None? || (i < |s.threads| && ClaimOf(t.threads[i]) == ClaimOf(s.threads[i]))
    requires Draws(s, t, i, t.threads[i])
    ensures Follows(s, t)
  {
    SameStoreIsLater(s, t);
    OneMoves(s, t, i);
  }

  // ---- Steps that leave the store alone ----

  lemma {:induction false} FilteredIsWithin(scopes: seq<string>, permissions: seq<string>)
    ensures All(Filtered(scopes, permissions), scopes) && All(Filtered(scopes, permissions), permissions)
    decreases |scopes|
  {
    if scopes != [] {
      FilteredIsWithin(scopes[1..], permissions);
      assert scopes == [scopes[0]] + scopes[1..];
    }
  }

  lemma {:induction false} FilteredKeepsAll(scopes: seq<string>, permissions: seq<string>)
    ensures |Filtered(scopes, permissions)| <= |scopes|
    ensures |Filtered(scopes, permissions)| == |scopes| ==> Filtered(scopes, permissions) == scopes
    decreases |scopes|
  {
    if scopes != [] { FilteredKeepsAll(scopes[1..], permissions); }
  }

  lemma NarrowedIsOk(s: State, t: Thread, permissions: Option<seq<string>>)
    requires t.Consenting? && ThreadOk(s, t)
    ensures ThreadOk(s, Narrowed(t, permissions, s.now)) && ClaimOf(Narrowed(t, permissions, s.now)).None?
  {
    if permissions.Some? { FilteredIsWithin(t.asked.value.scopes, permissions.value); }
  }

  lemma ConsentingKeeps(s: State, i: nat, permissions: Option<seq<string>>)
    requires Inv(s) && i < |s.threads| && s.threads[i].Consenting?
    ensures Follows(s, With(s, i, Narrowed(s.threads[i], permissions, s.now)))
  {
    assert ThreadOk(s, s.threads[i]);
    NarrowedIsOk(s, s.threads[i], permissions);
    CallMovesTo(s, i, Narrowed(s.threads[i], permissions, s.now));
  }

  /** A call goes on without touching anything but itself. */
  lemma CallMovesTo(s: State, i: nat, th: Thread)
    requires Inv(s) && i < |s.threads| && ThreadOk(s, th)
    requires ClaimOf(th).None? || ClaimOf(th) == ClaimOf(s.threads[i])
    requires Drawn(th).None? || Drawn(th) == Drawn(s.threads[i])
    ensures Follows(s, With(s, i, th))
  {
    var t := With(s, i, th);
    SameStoreIsLater(s, t);
    ThreadStays(s, t, th);
    CallMoves(s, t, i);
  }

  lemma CallStarts(s: State, th: Thread)
    requires Inv(s) && ThreadOk(s, th) && ClaimOf(th).None? && Drawn(th).None?
    ensures Follows(s, Spawned(s, th))
  {
    var t := Spawned(s, th);
    SameStoreIsLater(s, t);
    ThreadStays(s, t, th);
    CallMoves(s, t, |s.threads|);
  }

  lemma ExchangingKeeps(s: State, i: nat, permissions: Option<seq<string>>)
    requires Inv(s) && i < |s.threads| && s.threads[i].Exchanging?
    ensures Follows(s, With(s, i, ExchangePermitted(s.threads[i], permissions, s.now)))
  {
    assert ThreadOk(s, s.threads[i]);
    CallMovesTo(s, i, ExchangePermitted(s.threads[i], permissions, s.now));
  }

  /** Drawing tokens for a grant read earlier. */
  ghost predicate Mints(s: State, credential: Credential, id: nat, base: Record<Grant>, g: Grant) {
    && BaseOk(s, id, base) && !base.value.revoked && GrantMoves(base.value, g)
    && g == base.value.(scopes := g.scopes, usedRefresh := g.usedRefresh) && |g.usedRefresh| <= MAX_ROTATIONS
    && (forall h | h in g.usedRefresh :: Known(h, s.nonce))
    && (credential.ByCode? ==> Known(Digest(credential.token), s.nonce))
    && (credential.ByRefresh? ==>
          && credential.token.grant == id && base.value.refreshHash == Digest(credential.token)
          && Digest(credential.token) in g.usedRefresh && Digest(credential.token) !in base.value.usedRefresh)
  }

  lemma MintedIsOk(s: State, i: nat, credential: Credential, id: nat, base: Record<Grant>, g: Grant)
    requires i < |s.threads| && StoreOk(s) && Mints(s, credential, id, base, g)
    ensures var t := Minted(s, i, credential, id, base, g);
            ThreadOk(t, t.threads[i]) && SameStore(s, t)
  {
    var t := Minted(s, i, credential, id, base, g);
    SameStoreIsLater(s, t);
    BaseOkStays(s, t, id, base);
  }

  /** The grant a refresh asks to store. */
  function Rotated(g: Grant, refresh: Token, scopes: seq<string>): Grant {
    g.(scopes := scopes, usedRefresh := g.usedRefresh + [Digest(refresh)])
  }

  lemma RotatedIsOk(s: State, refresh: Token, base: Record<Grant>, scopes: seq<string>)
    requires GrantOk(s, refresh.grant, base) && base.value.refreshHash == Digest(refresh)
    requires All(scopes, base.value.scopes) && |base.value.usedRefresh| < MAX_ROTATIONS
    ensures var g := Rotated(base.value, refresh, scopes);
            && GrantMoves(base.value, g) && |g.usedRefresh| <= MAX_ROTATIONS
            && (forall h | h in g.usedRefresh :: Known(h, s.nonce))
            && Digest(refresh) in g.usedRefresh && Digest(refresh) !in base.value.usedRefresh
  {
  }

  predicate MayRotate(t: Thread, permissions: Option<seq<string>>)
    requires t.Refreshing?
  {
    && permissions.Some? && Wanted(t) != [] && All(Wanted(t), t.base.value.scopes) && All(Wanted(t), permissions.value)
    && |t.base.value.usedRefresh| < MAX_ROTATIONS
  }

  /** Tokens are drawn by a call that has won its code, or is about to try its refresh token. */
  lemma MintedKeeps(s: State, i: nat, credential: Credential, id: nat, base: Record<Grant>, g: Grant)
    requires Inv(s) && i < |s.threads| && Mints(s, credential, id, base, g)
    requires credential.ByCode? ==> ClaimOf(s.threads[i]) == Some(Holding(credential))
    ensures Follows(s, Minted(s, i, credential, id, base, g))
  {
    MintedIsOk(s, i, credential, id, base, g);
    CallMoves(s, Minted(s, i, credential, id, base, g), i);
  }

  lemma RefreshRefusedKeeps(s: State, i: nat, permissions: Option<seq<string>>)
    requires Inv(s) && i < |s.threads| && s.threads[i].Refreshing? && !MayRotate(s.threads[i], permissions)
    ensures Follows(s, RefreshPermitted(s, i, permissions))
  {
    var th := s.threads[i];
    assert ThreadOk(s, th);
    if permissions.Some? && Wanted(th) != [] && All(Wanted(th), th.base.value.scopes)
        && All(Wanted(th), permissions.value)
    {
      CallMovesTo(s, i, Revoking(th.refresh.grant, th.base, Fail));
    } else {
      CallMovesTo(s, i, Ended(Refused));
    }
  }

  lemma RefreshingKeeps(s: State, i: nat, permissions: Option<seq<string>>)
    requires Inv(s) && i < |s.threads| && s.threads[i].Refreshing?
    ensures Follows(s, RefreshPermitted(s, i, permissions))
  {
    var th := s.threads[i];
    if MayRotate(th, permissions) {
      assert ThreadOk(s, th);
      RotatedIsOk(s, th.refresh, th.base, Wanted(th));
      MintedKeeps(s, i, ByRefresh(th.refresh), th.refresh.grant, th.base,
          Rotated(th.base.value, th.refresh, Wanted(th)));
    } else {
      RefreshRefusedKeeps(s, i, permissions);
    }
  }

  lemma CodeDoneKeeps(s: State, i: nat)
    requires Inv(s) && i < |s.threads| && s.threads[i].Spending? && s.threads[i].acknowledged
    ensures Follows(s, CodeDone(s, i))
  {
    var th := s.threads[i];
    assert ThreadOk(s, th);
    if th.read.expiresAt > s.now {
      MintedKeeps(s, i, ByCode(th.code), th.read.value.grant, th.base, th.base.value);
    } else {
      CallMovesTo(s, i, Ended(Refused));
    }
  }

  lemma AskDoneKeeps(s: State, i: nat)
    requires Inv(s) && i < |s.threads| && s.threads[i].Asking? && s.threads[i].acknowledged
    ensures Follows(s, With(s, i, AskDone(s.threads[i], s.now)))
  {
    assert ThreadOk(s, s.threads[i]);
    CallMovesTo(s, i, AskDone(s.threads[i], s.now));
  }

  lemma ViewKeeps(s: State, i: nat, clientOk: bool)
    requires Inv(s) && i < |s.threads| && s.threads[i].Consented?
    ensures Follows(s, With(s, i, Viewing(s.threads[i], clientOk, s.now)))
  {
    assert ThreadOk(s, s.threads[i]);
    CallMovesTo(s, i, Viewing(s.threads[i], clientOk, s.now));
  }

  lemma RefreshOpenedKeeps(s: State, token: Token, client: string, wanted: Option<seq<string>>)
    requires Inv(s)
    ensures Follows(s, RefreshOpened(s, token, client, wanted))
  {
    CallStarts(s, RefreshOpened(s, token, client, wanted).threads[|s.threads|]);
  }

  lemma ConsentOpenedKeeps(s: State, request: Hash, actor: string, decision: Option<bool>)
    requires Inv(s)
    ensures Follows(s, ConsentOpened(s, request, actor, decision))
  {
    CallStarts(s, ConsentOpened(s, request, actor, decision).threads[|s.threads|]);
  }

  lemma CodePresentedKeeps(s: State, code: Token, client: string, redirect: string, verifier: string)
    requires Inv(s)
    ensures Follows(s, CodePresented(s, code, client, redirect, verifier))
  {
    CallStarts(s, CodePresented(s, code, client, redirect, verifier).threads[|s.threads|]);
  }

  lemma RevokeOpenedKeeps(s: State, id: nat, actor: string)
    requires Inv(s)
    ensures Follows(s, RevokeOpened(s, id, actor))
  {
    if id in s.grants { assert GrantOk(s, id, s.grants[id]); }
    CallStarts(s, RevokeOpened(s, id, actor).threads[|s.threads|]);
  }

  lemma TokenRevokeOpenedKeeps(s: State, token: Token, client: string)
    requires Inv(s)
    ensures Follows(s, TokenRevokeOpened(s, token, client))
  {
    if token.grant in s.grants { assert GrantOk(s, token.grant, s.grants[token.grant]); }
    CallStarts(s, TokenRevokeOpened(s, token, client).threads[|s.threads|]);
  }

  lemma ReadGrantKeeps(s: State, i: nat)
    requires Inv(s) && i < |s.threads| && s.threads[i].Redeeming?
    ensures Follows(s, GrantRead(s, i))
  {
    assert ThreadOk(s, s.threads[i]);
    CallMovesTo(s, i, GrantRead(s, i).threads[i]);
  }

  // ---- Steps of the store ----

  lemma StoreStays(s: State, t: State)
    requires StoreOk(s) && Later(s, t) && t.approvals == s.approvals
    requires forall k | k in t.requests :: PendingOk(t, k, t.requests[k].value)
    requires forall k | k in t.codes :: Known(k, t.nonce)
    requires t.grants != s.grants ==> forall id | id in t.grants :: GrantOk(t, id, t.grants[id])
    requires forall k | k in t.begun :: Known(k, t.nonce)
    ensures StoreOk(t)
  {
    forall id | id in t.approvals ensures ApprovalOk(t, t.approvals[id]) { ApprovalStays(s, t, s.approvals[id]); }
    forall id | id in t.grants ensures GrantOk(t, id, t.grants[id]) {
      if t.grants == s.grants { GrantOkStays(s, t, id, s.grants[id]); }
    }
  }

  lemma AskWonIsLater(s: State, i: nat)
    requires i < |s.threads| && s.threads[i].Asking? && !s.threads[i].acknowledged && AskingOk(s, s.threads[i])
    requires Matches(s.requests, s.threads[i].request, s.threads[i].asked)
    ensures Later(s, AskCommitted(s, i)) && s.requests[s.threads[i].request] == s.threads[i].asked
  {
  }

  lemma AskWon(s: State, i: nat)
    requires Inv(s) && i < |s.threads| && s.threads[i].Asking? && !s.threads[i].acknowledged
    requires AskingOk(s, s.threads[i]) && Matches(s.requests, s.threads[i].request, s.threads[i].asked)
    ensures Follows(s, AskCommitted(s, i))
  {
    var t, th := AskCommitted(s, i), s.threads[i];
    AskWonIsLater(s, i);
    StoreStays(s, t);
    OneMoves(s, t, i);
  }

  lemma AskCommittedKeeps(s: State, i: nat)
    requires Inv(s) && i < |s.threads| && s.threads[i].Asking? && !s.threads[i].acknowledged
    ensures Follows(s, AskCommitted(s, i))
  {
    assert ThreadOk(s, s.threads[i]);
    if Matches(s.requests, s.threads[i].request, s.threads[i].asked) {
      AskWon(s, i);
    } else {
      WriteLost(s, AskCommitted(s, i), i);
    }
  }

  lemma CodeWonIsLater(s: State, i: nat)
    requires i < |s.threads| && s.threads[i].Spending? && !s.threads[i].acknowledged && ThreadOk(s, s.threads[i])
    requires Matches(s.codes, Digest(s.threads[i].code), s.threads[i].read)
    ensures Later(s, CodeCommitted(s, i)) && s.codes[Digest(s.threads[i].code)] == s.threads[i].read
  {
  }

  lemma CodeWon(s: State, i: nat)
    requires Inv(s) && i < |s.threads| && s.threads[i].Spending? && !s.threads[i].acknowledged
    requires ThreadOk(s, s.threads[i]) && Matches(s.codes, Digest(s.threads[i].code), s.threads[i].read)
    ensures Follows(s, CodeCommitted(s, i))
  {
    hide Follows, ClaimsOk, DrawnOnce;
    var t, th := CodeCommitted(s, i), s.threads[i];
    CodeWonIsLater(s, i);
    StoreStays(s, t);
    BaseOkStays(s, t, th.read.value.grant, th.base);
    OneMoves(s, t, i);
  }

  lemma CodeCommittedKeeps(s: State, i: nat)
    requires Inv(s) && i < |s.threads| && s.threads[i].Spending? && !s.threads[i].acknowledged
    ensures Follows(s, CodeCommitted(s, i))
  {
    assert ThreadOk(s, s.threads[i]);
    if Matches(s.codes, Digest(s.threads[i].code), s.threads[i].read) { CodeWon(s, i); }
    else { WriteLost(s, CodeCommitted(s, i), i); }
  }

  /** A grant record is replaced by one that goes on from it. */
  lemma GrantReplaced(s: State, t: State, id: nat, base: Record<Grant>, next: Record<Grant>)
    requires StoreOk(s) && BaseOk(s, id, base) && Matches(s.grants, id, base)
    requires t == s.(threads := t.threads, grants := s.grants[id := Saved(base, next)])
    requires GrantOk(s, id, next) && GrantMoves(base.value, next.value)
    ensures Later(s, t) && StoreOk(t) && s.grants[id] == base
  {
    assert Later(s, t);
    forall k | k in t.grants ensures GrantOk(t, k, t.grants[k]) {
      GrantOkStays(s, t, k, if k == id then Saved(base, next) else s.grants[k]);
    }
    StoreStays(s, t);
  }

  lemma GrantWon(s: State, t: State, i: nat, id: nat, base: Record<Grant>, next: Record<Grant>)
    requires Inv(s) && i < |s.threads| && i < |t.threads| && BaseOk(s, id, base) && Matches(s.grants, id, base)
    requires t == s.(threads := s.threads[i := t.threads[i]], grants := s.grants[id := Saved(base, next)])
    requires GrantOk(s, id, next) && GrantMoves(base.value, next.value) && ThreadOk(s, t.threads[i])
    requires var c := ClaimOf(t.threads[i]);
             c.None? || c == ClaimOf(s.threads[i]) || WinsRotation(c.value, id, base.value, next.value)
    requires Drawn(t.threads[i]).None? || Drawn(t.threads[i]) == Drawn(s.threads[i])
    ensures Follows(s, t)
  {
    GrantReplaced(s, t, id, base, next);
    ThreadStays(s, t, t.threads[i]);
    OneMoves(s, t, i);
  }

  /** The write puts this refresh token among the rotated ones. */
  ghost predicate WinsRotation(c: Claim, id: nat, before: Grant, after: Grant) {
    && c.Holding? && c.credential.ByRefresh? && c.credential.token.grant == id
    && Digest(c.credential.token) in after.usedRefresh && Digest(c.credential.token) !in before.usedRefresh
  }

  /** A write that lost changes nothing but its call. */
  lemma WriteLost(s: State, t: State, i: nat)
    requires Inv(s) && i < |s.threads| && i < |t.threads| && t == With(s, i, t.threads[i])
    requires t.threads[i].Ended? || t.threads[i].Rereading?
    ensures Follows(s, t)
  {
    CallMovesTo(s, i, t.threads[i]);
  }

  lemma MintCommittedKeeps(s: State, i: nat)
    requires Inv(s) && i < |s.threads| && s.threads[i].Minting? && !s.threads[i].acknowledged
    ensures Follows(s, MintCommitted(s, i))
  {
    var t, th := MintCommitted(s, i), s.threads[i];
    assert ThreadOk(s, th);
    if Matches(s.grants, th.id, th.base) {
      GrantWon(s, t, i, th.id, th.base, th.base.(value := th.next));
    } else {
      WriteLost(s, t, i);
    }
  }

  lemma RevokeCommittedKeeps(s: State, i: nat)
    requires Inv(s) && i < |s.threads| && s.threads[i].Revoking?
    ensures Follows(s, RevokeCommitted(s, i))
  {
    var t, th := RevokeCommitted(s, i), s.threads[i];
    assert ThreadOk(s, th);
    if Matches(s.grants, th.id, th.base) {
      GrantWon(s, t, i, th.id, th.base, RevokedRecord(th.base));
    } else {
      WriteLost(s, t, i);
    }
  }

  lemma RevokeLostKeeps(s: State, i: nat, written: bool)
    requires Inv(s) && i < |s.threads| && s.threads[i].Revoking? && s.threads[i].later.Check?
    ensures Follows(s, RevokeLost(s, i, written))
  {
    var t, th := RevokeLost(s, i, written), s.threads[i];
    assert ThreadOk(s, th);
    if written && Matches(s.grants, th.id, th.base) {
      GrantWon(s, t, i, th.id, th.base, RevokedRecord(th.base));
    } else {
      WriteLost(s, t, i);
    }
  }

  lemma BegunKeeps(s: State, client: string, redirect: string, challenge: Hash, scopes: seq<string>)
    requires Inv(s)
    ensures Follows(s, BegunState(s, client, redirect, challenge, scopes))
  {
    var t := BegunState(s, client, redirect, challenge, scopes);
    assert Later(s, t);
    forall id | id in t.grants ensures GrantOk(t, id, t.grants[id]) { GrantOkStays(s, t, id, s.grants[id]); }
    StoreStays(s, t);
    NobodyMoves(s, t);
  }

  lemma PrunedKeeps(s: State, before: int, requests: set<Hash>, codes: set<Hash>, grants: set<nat>)
    requires Inv(s)
    ensures Follows(s, Pruned(s, before, requests, codes, grants))
  {
    var t := Pruned(s, before, requests, codes, grants);
    assert Later(s, t);
    forall id | id in t.grants ensures GrantOk(t, id, t.grants[id]) { GrantOkStays(s, t, id, s.grants[id]); }
    StoreStays(s, t);
    NobodyMoves(s, t);
  }

  lemma CodeInsertedKeeps(s: State, i: nat)
    requires Inv(s) && i < |s.threads| && s.threads[i].Coding?
    ensures Follows(s, CodeInserted(s, i))
  {
    var t := CodeInserted(s, i);
    assert Later(s, t);
    forall id | id in t.grants ensures GrantOk(t, id, t.grants[id]) { GrantOkStays(s, t, id, s.grants[id]); }
    StoreStays(s, t);
    OneMoves(s, t, i);
  }

  /** The approval passes from the call to the record of approvals. */
  lemma GrantInsertedKeeps(s: State, i: nat)
    requires Inv(s) && i < |s.threads| && s.threads[i].Granting?
    ensures Follows(s, GrantInserted(s, i))
  {
    var t, th := GrantInserted(s, i), s.threads[i];
    assert ThreadOk(s, th) && ClaimOf(th) == Some(Approving(th.request));
    GrantInsertedStore(s, i);
    forall j | 0 <= j < |t.threads| ensures ThreadOk(t, t.threads[j]) {
      if j != i { ThreadStays(s, t, s.threads[j]); }
    }
    GrantInsertedClaims(s, i);
  }

  lemma GrantInsertedIsLater(s: State, i: nat)
    requires Inv(s) && i < |s.threads| && s.threads[i].Granting?
    ensures Later(s, GrantInserted(s, i))
  {
    assert s.nonce !in s.approvals;
  }

  lemma GrantInsertedStore(s: State, i: nat)
    requires Inv(s) && i < |s.threads| && s.threads[i].Granting?
    ensures var t := GrantInserted(s, i); Later(s, t) && StoreOk(t)
  {
    var t, th := GrantInserted(s, i), s.threads[i];
    assert ThreadOk(s, th) && ClaimOf(th) == Some(Approving(th.request));
    GrantInsertedIsLater(s, i);
    forall id | id in t.grants ensures GrantOk(t, id, t.grants[id]) {
      if id != s.nonce { GrantOkStays(s, t, id, s.grants[id]); }
    }
    forall id | id in t.approvals ensures ApprovalOk(t, t.approvals[id]) {
      if id != s.nonce { ApprovalStays(s, t, s.approvals[id]); } else { GoneStays(s, t, Approving(th.request)); }
    }
  }

  lemma GrantInsertedClaims(s: State, i: nat)
    requires Inv(s) && i < |s.threads| && s.threads[i].Granting? && Later(s, GrantInserted(s, i))
    ensures ClaimsOk(GrantInserted(s, i))
  {
    var t, th := GrantInserted(s, i), s.threads[i];
    assert ClaimOf(th) == Some(Approving(th.request)) && ClaimOf(t.threads[i]).None?;
    forall j | 0 <= j < |t.threads| ensures ClaimGone(t, ClaimOf(t.threads[j])) {
      ClaimGoneStays(s, t, ClaimOf(s.threads[j]));
    }
    forall id, j | id in t.approvals && 0 <= j < |t.threads|
      ensures ClaimOf(t.threads[j]) != Some(Approving(t.approvals[id].request))
    {
      if j != i && id == s.nonce { assert ClaimOf(s.threads[j]) != ClaimOf(s.threads[i]); }
    }
  }

  // ---- Runs ----

  ghost predicate Initial(s: State) {
    s.requests == map[] && s.codes == map[] && s.grants == map[] && s.threads == [] && s.begun == map[]
        && s.approvals == map[]
  }

  ghost predicate Run(s: State, actions: seq<Action>, t: State)
    decreases |actions|
  {
    if actions == [] then s == t else Enabled(s, actions[0]) && Run(Step(s, actions[0]), actions[1..], t)
  }

  lemma PermitKeeps(s: State, i: nat, permissions: Option<seq<string>>)
    requires Inv(s) && Enabled(s, Permit(i, permissions))
    ensures Follows(s, Step(s, Permit(i, permissions)))
  {
    if s.threads[i].Consenting? { ConsentingKeeps(s, i, permissions); }
    else if s.threads[i].Exchanging? { ExchangingKeeps(s, i, permissions); }
    else { RefreshingKeeps(s, i, permissions); }
  }

  lemma CommitKeeps(s: State, i: nat)
    requires Inv(s) && Enabled(s, Commit(i))
    ensures Follows(s, Step(s, Commit(i)))
  {
    if s.threads[i].Asking? { AskCommittedKeeps(s, i); }
    else if s.threads[i].Spending? { CodeCommittedKeeps(s, i); }
    else if s.threads[i].Minting? { MintCommittedKeeps(s, i); }
    else { RevokeCommittedKeeps(s, i); }
  }

  lemma MintDoneKeeps(s: State, i: nat)
    requires Inv(s) && i < |s.threads| && s.threads[i].Minting? && s.threads[i].acknowledged
    ensures Follows(s, With(s, i, MintDone(s.threads[i], s.now)))
  {
    assert ThreadOk(s, s.threads[i]);
    CallMovesTo(s, i, MintDone(s.threads[i], s.now));
  }

  lemma AcknowledgeKeeps(s: State, i: nat)
    requires Inv(s) && Enabled(s, Acknowledge(i))
    ensures Follows(s, Step(s, Acknowledge(i)))
  {
    if s.threads[i].Asking? { AskDoneKeeps(s, i); }
    else if s.threads[i].Spending? { CodeDoneKeeps(s, i); }
    else { MintDoneKeeps(s, i); }
  }

  lemma TickKeeps(s: State, ms: nat)
    requires Inv(s)
    ensures Follows(s, s.(now := s.now + ms))
  {
    SameStoreIsLater(s, s.(now := s.now + ms));
    NobodyMoves(s, s.(now := s.now + ms));
  }

  lemma CallStepKeeps(s: State, a: Action)
    requires Inv(s) && Enabled(s, a)
    requires a.Permit? || a.View? || a.Commit? || a.Acknowledge? || a.ReadGrant? || a.Lose? || a.ReadAgain?
    ensures Follows(s, Step(s, a))
  {
    match a
    case Permit(i, permissions) => PermitKeeps(s, i, permissions);
    case View(i, clientOk) => ViewKeeps(s, i, clientOk);
    case Commit(i) => CommitKeeps(s, i);
    case Acknowledge(i) => AcknowledgeKeeps(s, i);
    case ReadGrant(i) => ReadGrantKeeps(s, i);
    case Lose(i, written) => RevokeLostKeeps(s, i, written);
    case ReadAgain(i) => CallMovesTo(s, i, Reread(s, i).threads[i]);
  }

  lemma StepKeeps(s: State, a: Action)
    requires Inv(s) && Enabled(s, a)
    ensures Follows(s, Step(s, a))
  {
    hide Inv, Follows;
    match a
    case Tick(ms) => TickKeeps(s, ms);
    case Begin(client, redirect, challenge, scopes) => BegunKeeps(s, client, redirect, challenge, scopes);
    case InsertGrant(i) => GrantInsertedKeeps(s, i);
    case InsertCode(i) => CodeInsertedKeeps(s, i);
    case Prune(before, requests, codes, grants) => PrunedKeeps(s, before, requests, codes, grants);
    case OpenConsent(request, actor, decision) => ConsentOpenedKeeps(s, request, actor, decision);
    case PresentCode(code, client, redirect, verifier) => CodePresentedKeeps(s, code, client, redirect, verifier);
    case PresentRefresh(refresh, client, wanted) => RefreshOpenedKeeps(s, refresh, client, wanted);
    case RevokeGrant(id, actor) => RevokeOpenedKeeps(s, id, actor);
    case RevokeToken(token, client) => TokenRevokeOpenedKeeps(s, token, client);
    case _ => CallStepKeeps(s, a);
  }

  lemma {:induction false} RunKeeps(s: State, actions: seq<Action>, t: State)
    requires Inv(s) && Run(s, actions, t)
    ensures Inv(t)
    decreases |actions|
  {
    if actions != [] {
      StepKeeps(s, actions[0]);
      RunKeeps(Step(s, actions[0]), actions[1..], t);
    }
  }

  lemma {:induction false} RunIsLater(s: State, actions: seq<Action>, t: State)
    requires Inv(s) && Run(s, actions, t)
    ensures Later(s, t)
    decreases |actions|
  {
    if actions != [] {
      StepKeeps(s, actions[0]);
      RunIsLater(Step(s, actions[0]), actions[1..], t);
      LaterTransitive(s, Step(s, actions[0]), t);
    }
  }

  // ---- One response for a code, one for a refresh token ----

  lemma {:induction false} OneResponsePerCredential(s: State, actions: seq<Action>, t: State, i: nat, j: nat)
    requires Initial(s) && Run(s, actions, t) && i < |t.threads| && j < |t.threads|
    requires t.threads[i].Answered? && t.threads[j].Answered? && t.threads[i].credential == t.threads[j].credential
    ensures i == j
  {
    RunKeeps(s, actions, t);
    assert ClaimOf(t.threads[i]) == ClaimOf(t.threads[j]);
  }

  lemma {:induction false} GoneIsNeverWon(s: State, actions: seq<Action>, t: State, c: Claim, i: nat)
    requires Inv(s) && Run(s, actions, t) && Gone(s, c) && i < |t.threads| && ClaimOf(t.threads[i]) == Some(c)
    ensures i < |s.threads| && ClaimOf(s.threads[i]) == Some(c)
    decreases |actions|
  {
    if actions != [] {
      var m := Step(s, actions[0]);
      StepKeeps(s, actions[0]);
      GoneStays(s, m, c);
      GoneIsNeverWon(m, actions[1..], t, c, i);
      if i < |m.threads| { assert WinsAt(s, i, ClaimOf(m.threads[i])); }
    }
  }

  /** A refresh token that has been rotated, or a code that has been used, gives no response to any call that had not
      won it by then. */
  lemma {:induction false} SpentCredentialGetsNothing(s: State, actions: seq<Action>, t: State,
      credential: Credential, i: nat)
    requires Inv(s) && Run(s, actions, t) && i < |t.threads|
    requires match credential
             case ByCode(code) => Digest(code) in s.codes && s.codes[Digest(code)].value.used
             case ByRefresh(refresh) =>
               refresh.grant in s.grants && Digest(refresh) in s.grants[refresh.grant].value.usedRefresh
    requires t.threads[i].Answered? && t.threads[i].credential == credential
    ensures i < |s.threads| && ClaimOf(s.threads[i]) == Some(Holding(credential))
  {
    if credential.ByRefresh? { assert GrantOk(s, credential.token.grant, s.grants[credential.token.grant]); }
    GoneIsNeverWon(s, actions, t, Holding(credential), i);
  }

  // ---- Grants ----

  /** Revocation lasts, scopes only shrink, rotated tokens are never forgotten, and a grant once pruned stays away. */
  lemma {:induction false} GrantsOnlyNarrow(s: State, actions: seq<Action>, t: State, id: nat)
    requires Inv(s) && Run(s, actions, t) && id < s.nonce && id in t.grants
    ensures id in s.grants
    ensures s.grants[id].value.revoked ==> t.grants[id].value.revoked
    ensures forall x | x in t.grants[id].value.scopes :: x in s.grants[id].value.scopes
    ensures s.grants[id].value.usedRefresh <= t.grants[id].value.usedRefresh
    ensures t.grants[id].value.subject == s.grants[id].value.subject && t.grants[id].expiresAt == s.grants[id].expiresAt
  {
    RunKeeps(s, actions, t);
    RunIsLater(s, actions, t);
    assert GrantMoves(s.grants[id].value, t.grants[id].value);
    assert GrantOk(s, id, s.grants[id]) && GrantOk(t, id, t.grants[id]);
  }

  lemma {:induction false} GrantsStayWithinLimits(s: State, actions: seq<Action>, t: State, id: nat)
    requires Initial(s) && Run(s, actions, t) && id in t.grants
    ensures var g := t.grants[id].value;
            && g.accessExpiresAt <= g.expiresAt == t.grants[id].expiresAt
            && |g.usedRefresh| <= MAX_ROTATIONS && g.refreshHash !in g.usedRefresh
  {
    RunKeeps(s, actions, t);
    assert GrantOk(t, id, t.grants[id]);
  }

  /** An accepted access token leads back to one approval of its subject, for no more than that request asked. */
  lemma {:induction false} AccessTracesToApproval(s: State, actions: seq<Action>, t: State, token: Token,
      permissions: Option<seq<string>>, later: int)
    requires Initial(s) && Run(s, actions, t) && Verify(t, token, permissions, later).Some?
    ensures var access := Verify(t, token, permissions, later).value;
            && access.id in t.approvals && t.approvals[access.id].request in t.begun
            && t.approvals[access.id].subject == access.subject
            && All(access.scopes, t.approvals[access.id].scopes)
            && All(access.scopes, t.begun[t.approvals[access.id].request])
            && t.now < access.expiresAt && later < access.expiresAt
            && forall id | id in t.approvals && t.approvals[id].request == t.approvals[access.id].request ::
                  id == access.id
  {
    RunKeeps(s, actions, t);
    var id := token.grant;
    FilteredIsWithin(t.grants[id].value.scopes, permissions.value);
    assert GrantOk(t, id, t.grants[id]) && ApprovalOk(t, t.approvals[id]);
  }

  /** Once new tokens are stored, no other access token of that grant is accepted and no other refresh token is
      current. */
  lemma OnlyLatestTokensCount(s: State, i: nat, token: Token, permissions: Option<seq<string>>, later: int)
    requires Inv(s) && i < |s.threads| && s.threads[i].Minting? && !s.threads[i].acknowledged
    requires Matches(s.grants, s.threads[i].id, s.threads[i].base) && token.grant == s.threads[i].id
    ensures var t := Step(s, Commit(i));
            && t.grants[token.grant].value.refreshHash == Digest(s.threads[i].refresh)
            && (Verify(t, token, permissions, later).Some? ==> token == s.threads[i].access)
  {
    assert ThreadOk(s, s.threads[i]);
  }

  // ---- Replay and revocation ----

  /** A replayed token is refused in every case. After any run the replay's write revokes the grant exactly when nobody
      else has written the grant since the replay read it, or somebody has revoked it already. */
  lemma {:induction false} ReplayRevokesExactly(s: State, refresh: Token, client: string, wanted: Option<seq<string>>,
      actions: seq<Action>, t: State)
    requires Inv(s) && Replays(s, refresh, client)
    requires Run(Step(s, PresentRefresh(refresh, client, wanted)), actions, t) && |s.threads| < |t.threads|
    requires t.threads[|s.threads|] == Revoking(refresh.grant, s.grants[refresh.grant], Fail)
    ensures Enabled(t, Commit(|s.threads|))
    ensures var u := Step(t, Commit(|s.threads|));
            && u.threads[|s.threads|] == Ended(Refused)
            && (refresh.grant in t.grants ==>
                  (u.grants[refresh.grant].value.revoked <==>
                     t.grants[refresh.grant] == s.grants[refresh.grant] || t.grants[refresh.grant].value.revoked))
  {
    StepKeeps(s, PresentRefresh(refresh, client, wanted));
    RunKeeps(Step(s, PresentRefresh(refresh, client, wanted)), actions, t);
    assert ThreadOk(t, t.threads[|s.threads|]);
  }

  /** A rotated token of a live, unrevoked grant. */
  ghost predicate Replays(s: State, refresh: Token, client: string) {
    && refresh.kind.RefreshSecret? && GrantLive(s, refresh.grant)
    && var g := s.grants[refresh.grant].value;
       g.client == client && !g.revoked && Digest(refresh) in g.usedRefresh && Digest(refresh) != g.refreshHash
  }

  /** The replay and a refresh with the current token both read the grant, and the refresh writes first. */
  lemma ReplayLosesRace(s: State, replayed: Token, current: Token, client: string) returns (t: State)
    requires Replays(s, replayed, client) && current.kind.RefreshSecret? && current.grant == replayed.grant
    requires var g := s.grants[replayed.grant].value;
             g.refreshHash == Digest(current) && g.scopes != [] && |g.usedRefresh| < MAX_ROTATIONS
    ensures Run(s, Race(replayed, current, client, |s.threads|, s.grants[replayed.grant].value.scopes), t)
    ensures |s.threads| < |t.threads| && t.threads[|s.threads|] == Ended(Refused)
    ensures replayed.grant in t.grants && !t.grants[replayed.grant].value.revoked
  {
    var i, scopes := |s.threads|, s.grants[replayed.grant].value.scopes;
    var race := Race(replayed, current, client, i, scopes);
    var two := BothRead(s, replayed, current, client);
    t := RefreshWritesFirst(two, i, replayed, current);
    RunJoins(s, race[..2], two, race[2..], t);
    assert race[..2] + race[2..] == race;
  }

  lemma BothRead(s: State, replayed: Token, current: Token, client: string) returns (two: State)
    requires Replays(s, replayed, client) && current.kind.RefreshSecret? && current.grant == replayed.grant
    requires s.grants[replayed.grant].value.refreshHash == Digest(current)
    ensures Run(s, [PresentRefresh(replayed, client, None), PresentRefresh(current, client, None)], two)
    ensures two == s.(threads := s.threads + [Revoking(replayed.grant, s.grants[replayed.grant], Fail),
                                              Refreshing(current, None, s.grants[replayed.grant])])
  {
    var one := Step(s, PresentRefresh(replayed, client, None));
    two := Step(one, PresentRefresh(current, client, None));
    assert [PresentRefresh(replayed, client, None), PresentRefresh(current, client, None)][1..]
        == [PresentRefresh(current, client, None)];
    assert Run(one, [PresentRefresh(current, client, None)], two);
  }

  lemma RefreshMints(s: State, i: nat)
    requires i < |s.threads| && s.threads[i].Refreshing? && s.threads[i].wanted == None
    requires var g := s.threads[i].base.value;
             g.scopes != [] && |g.usedRefresh| < MAX_ROTATIONS && s.threads[i].base.expiresAt > s.now
    ensures var th := s.threads[i];
            var g := th.base.value;
            RefreshPermitted(s, i, Some(g.scopes))
              == Minted(s, i, ByRefresh(th.refresh), th.refresh.grant, th.base, Rotated(g, th.refresh, g.scopes))
  {
  }

  lemma {:induction false} ThreeSteps(s: State, a: Action, b: Action, c: Action)
    requires Enabled(s, a) && Enabled(Step(s, a), b) && Enabled(Step(Step(s, a), b), c)
    ensures Run(s, [a, b, c], Step(Step(Step(s, a), b), c))
  {
    hide Step, Enabled;
    assert [a, b, c][1..] == [b, c] && [b, c][1..] == [c] && [c][1..] == [];
    assert Run(Step(Step(s, a), b), [c], Step(Step(Step(s, a), b), c));
    assert Run(Step(s, a), [b, c], Step(Step(Step(s, a), b), c));
  }

  lemma RefreshWritesFirst(s: State, i: nat, replayed: Token, current: Token) returns (t: State)
    requires GrantLive(s, current.grant) && i + 1 < |s.threads| && !s.grants[current.grant].value.revoked
    requires s.threads[i] == Revoking(current.grant, s.grants[current.grant], Fail)
    requires s.threads[i + 1] == Refreshing(current, None, s.grants[current.grant])
    requires var g := s.grants[current.grant].value; g.scopes != [] && |g.usedRefresh| < MAX_ROTATIONS
    ensures Run(s, [Permit(i + 1, Some(s.grants[current.grant].value.scopes)), Commit(i + 1), Commit(i)], t)
    ensures |t.threads| == |s.threads| && t.threads[i] == Ended(Refused)
    ensures current.grant in t.grants && !t.grants[current.grant].value.revoked
  {
    var base := s.grants[current.grant];
    RefreshMints(s, i + 1);
    var minting := RefreshPermitted(s, i + 1, Some(base.value.scopes));
    var minted := MintCommitted(minting, i + 1);
    t := RevokeCommitted(minted, i);
    ThreeSteps(s, Permit(i + 1, Some(base.value.scopes)), Commit(i + 1), Commit(i));
  }

  function Race(replayed: Token, current: Token, client: string, i: nat, scopes: seq<string>): seq<Action> {
    [PresentRefresh(replayed, client, None), PresentRefresh(current, client, None), Permit(i + 1, Some(scopes)),
     Commit(i + 1), Commit(i)]
  }

  lemma {:induction false} RunJoins(s: State, first: seq<Action>, t: State, second: seq<Action>, u: State)
    requires Run(s, first, t) && Run(t, second, u)
    ensures Run(s, first + second, u)
    decreases |first|
  {
    if first == [] {
      assert first + second == second;
    } else {
      assert (first + second)[1..] == first[1..] + second;
      RunJoins(Step(s, first[0]), first[1..], t, second, u);
    }
  }

  /** The step ends call `i`, a revocation of this token: at the start, on its write, or after reading once more. */
  ghost predicate Revokes(s: State, a: Action, i: nat, token: Token, client: string)
    requires Enabled(s, a)
  {
    || (a == RevokeToken(token, client) && i == |s.threads|)
    || (a == Commit(i) && s.threads[i].Revoking? && s.threads[i].id == token.grant
        && s.threads[i].later == Check(client, token))
    || (a == ReadAgain(i) && s.threads[i].token == token && s.threads[i].client == client)
  }

  /** Token revocation reports success only when the token is of no use. */
  lemma QuietMeansInactive(s: State, a: Action, i: nat, token: Token, client: string)
    requires Inv(s) && Enabled(s, a) && (token.kind.AccessSecret? || token.kind.RefreshSecret?)
    requires Revokes(s, a, i, token, client)
    requires i < |Step(s, a).threads| && Step(s, a).threads[i] == Ended(Quiet)
    ensures Inactive(Step(s, a), token, client)
  {
  }

  /** The grant of an access token is gone, over, revoked or has other tokens. */
  ghost predicate Dead(s: State, access: Token) {
    access.grant in s.grants ==>
      var r := s.grants[access.grant];
      r.value.revoked || r.expiresAt <= s.now || r.value.accessHash != Digest(access)
  }

  /** A grant's access token only ever changes to one that a call has just drawn and not yet handed out. */
  ghost predicate KeepsAccess(s: State, a: Action, t: State, id: nat) {
    id in s.grants && id in t.grants && t.grants[id].value.accessHash != s.grants[id].value.accessHash ==>
      && a.Commit? && a.thread < |s.threads| && s.threads[a.thread].Minting?
      && t.grants[id].value.accessHash == Digest(s.threads[a.thread].access)
  }

  lemma CommitKeepsAccess(s: State, i: nat, id: nat)
    requires Inv(s) && Enabled(s, Commit(i))
    ensures KeepsAccess(s, Commit(i), Step(s, Commit(i)), id)
  {
    assert ThreadOk(s, s.threads[i]);
    if s.threads[i].Minting? { assert MintCommitted(s, i) == Step(s, Commit(i)); }
  }

  lemma LoseKeepsAccess(s: State, i: nat, written: bool, id: nat)
    requires Inv(s) && Enabled(s, Lose(i, written))
    ensures KeepsAccess(s, Lose(i, written), RevokeLost(s, i, written), id)
  {
    assert ThreadOk(s, s.threads[i]);
  }

  lemma InsertKeepsAccess(s: State, i: nat, id: nat)
    requires Inv(s) && Enabled(s, InsertGrant(i))
    ensures KeepsAccess(s, InsertGrant(i), GrantInserted(s, i), id)
  {
    if id in s.grants { assert GrantOk(s, id, s.grants[id]); }
  }

  /** A call moves on, and neither grants nor other calls change. */
  ghost predicate OnlyTalks(s: State, t: State, i: nat) {
    t.grants == s.grants && |t.threads| == |s.threads| && forall j | 0 <= j < |s.threads| && j != i ::
        t.threads[j] == s.threads[j]
  }

  lemma MintedOnlyTalks(s: State, i: nat, credential: Credential, id: nat, base: Record<Grant>, g: Grant)
    requires i < |s.threads|
    ensures OnlyTalks(s, Minted(s, i, credential, id, base, g), i)
  {
  }

  lemma WithOnlyTalks(s: State, i: nat, th: Thread)
    requires i < |s.threads|
    ensures OnlyTalks(s, With(s, i, th), i)
  {
  }

  lemma RefreshOnlyTalks(s: State, i: nat, permissions: Option<seq<string>>)
    requires i < |s.threads| && s.threads[i].Refreshing?
    ensures OnlyTalks(s, RefreshPermitted(s, i, permissions), i)
  {
    var th := s.threads[i];
    if MayRotate(th, permissions) {
      MintedOnlyTalks(s, i, ByRefresh(th.refresh), th.refresh.grant, th.base,
          Rotated(th.base.value, th.refresh, Wanted(th)));
    } else {
      WithOnlyTalks(s, i, RefreshPermitted(s, i, permissions).threads[i]);
    }
  }

  lemma PermitOnlyTalks(s: State, i: nat, permissions: Option<seq<string>>)
    requires Enabled(s, Permit(i, permissions))
    ensures OnlyTalks(s, Step(s, Permit(i, permissions)), i)
  {
    if s.threads[i].Refreshing? {
      RefreshOnlyTalks(s, i, permissions);
    } else {
      WithOnlyTalks(s, i, Step(s, Permit(i, permissions)).threads[i]);
    }
  }

  lemma AcknowledgeOnlyTalks(s: State, i: nat)
    requires Enabled(s, Acknowledge(i))
    ensures OnlyTalks(s, Step(s, Acknowledge(i)), i)
  {
    if s.threads[i].Spending? {
      var th := s.threads[i];
      MintedOnlyTalks(s, i, ByCode(th.code), th.read.value.grant, th.base, th.base.value);
      assert OnlyTalks(s, CodeDone(s, i), i);
    }
  }

  lemma ReadOnlyTalks(s: State, a: Action)
    requires Enabled(s, a) && (a.View? || a.ReadGrant? || a.ReadAgain?)
    ensures OnlyTalks(s, Step(s, a), a.thread)
  {
  }

  lemma OpenKeepsGrants(s: State, a: Action)
    requires Enabled(s, a) && !a.Commit? && !a.Lose? && !a.InsertGrant? && !a.Prune?
    requires !a.Permit? && !a.Acknowledge? && !a.View? && !a.ReadGrant? && !a.ReadAgain?
    ensures Step(s, a).grants == s.grants
  {
  }

  lemma StepKeepsAccess(s: State, a: Action, id: nat)
    requires Inv(s) && Enabled(s, a)
    ensures KeepsAccess(s, a, Step(s, a), id)
  {
    match a
    case Commit(i) => CommitKeepsAccess(s, i, id);
    case Lose(i, written) => LoseKeepsAccess(s, i, written, id);
    case InsertGrant(i) => InsertKeepsAccess(s, i, id);
    case Prune(before, requests, codes, grants) =>
      assert KeepsAccess(s, a, Pruned(s, before, requests, codes, grants), id);
    case Permit(i, permissions) => PermitOnlyTalks(s, i, permissions);
    case Acknowledge(i) => AcknowledgeOnlyTalks(s, i);
    case View(_, _) => ReadOnlyTalks(s, a);
    case ReadGrant(_) => ReadOnlyTalks(s, a);
    case ReadAgain(_) => ReadOnlyTalks(s, a);
    case _ => OpenKeepsGrants(s, a);
  }

  /** A finished call stays as it is. */
  ghost predicate Untouched(s: State, t: State, i: nat) {
    i < |s.threads| <= |t.threads| && t.threads[i] == s.threads[i]
  }

  lemma WriteLeavesAnswers(s: State, a: Action, i: nat)
    requires Enabled(s, a) && (a.Commit? || a.Lose? || a.InsertGrant? || a.InsertCode?)
    requires i < |s.threads| && s.threads[i].Answered?
    ensures Untouched(s, Step(s, a), i)
  {
  }

  lemma OpenLeavesAnswers(s: State, a: Action, i: nat)
    requires Enabled(s, a) && !a.Commit? && !a.Lose? && !a.InsertGrant? && !a.InsertCode?
    requires !a.Permit? && !a.Acknowledge? && !a.View? && !a.ReadGrant? && !a.ReadAgain?
    requires i < |s.threads|
    ensures Untouched(s, Step(s, a), i)
  {
  }

  lemma AnsweredStays(s: State, a: Action, i: nat)
    requires Enabled(s, a) && i < |s.threads| && s.threads[i].Answered?
    ensures Untouched(s, Step(s, a), i)
  {
    match a
    case Permit(j, permissions) => PermitOnlyTalks(s, j, permissions);
    case Acknowledge(j) => AcknowledgeOnlyTalks(s, j);
    case View(_, _) => ReadOnlyTalks(s, a);
    case ReadGrant(_) => ReadOnlyTalks(s, a);
    case ReadAgain(_) => ReadOnlyTalks(s, a);
    case Commit(_) => WriteLeavesAnswers(s, a, i);
    case Lose(_, _) => WriteLeavesAnswers(s, a, i);
    case InsertGrant(_) => WriteLeavesAnswers(s, a, i);
    case InsertCode(_) => WriteLeavesAnswers(s, a, i);
    case _ => OpenLeavesAnswers(s, a, i);
  }

  ghost predicate ExpiryKept(s: State, id: nat) {
    id in s.grants ==> s.grants[id].expiresAt == s.grants[id].value.expiresAt
  }

  lemma DeadMoves(s: State, a: Action, t: State, i: nat)
    requires DrawnOnce(s) && i < |s.threads| && s.threads[i].Answered? && s.threads[i].access.grant < s.nonce
    requires s.now <= t.now && GrantsMove(s, t) && KeepsAccess(s, a, t, s.threads[i].access.grant)
    requires ExpiryKept(s, s.threads[i].access.grant) && ExpiryKept(t, s.threads[i].access.grant)
    requires Dead(s, s.threads[i].access)
    ensures Dead(t, s.threads[i].access)
  {
    var access := s.threads[i].access;
    var id := access.grant;
    if id in t.grants {
      assert GrantMoves(s.grants[id].value, t.grants[id].value);
      if t.grants[id].value.accessHash != s.grants[id].value.accessHash {
        assert Drawn(s.threads[i]) == Some(access.nonce);
        assert Drawn(s.threads[a.thread]) == Some(s.threads[a.thread].access.nonce);
      }
    }
  }

  lemma DeadStays(s: State, a: Action, i: nat, access: Token)
    requires Inv(s) && Enabled(s, a) && i < |s.threads| && s.threads[i].Answered? && s.threads[i].access == access
    requires Dead(s, access)
    ensures Dead(Step(s, a), access)
  {
    hide Step, Enabled;
    var t, id := Step(s, a), access.grant;
    StepKeeps(s, a);
    StepKeepsAccess(s, a, id);
    assert ThreadOk(s, s.threads[i]);
    assert id in s.grants ==> GrantOk(s, id, s.grants[id]);
    assert id in t.grants ==> GrantOk(t, id, t.grants[id]);
    DeadMoves(s, a, t, i);
  }

  /** An access token that was handed out and has become of no use is refused in every later state. */
  lemma {:induction false} RefusedTokensStayRefused(s: State, actions: seq<Action>, t: State, i: nat,
                                                    permissions: Option<seq<string>>, later: int)
    requires Inv(s) && Run(s, actions, t) && i < |s.threads| && s.threads[i].Answered?
    requires Dead(s, s.threads[i].access)
    ensures Dead(t, s.threads[i].access) && Verify(t, s.threads[i].access, permissions, later).None?
    decreases |actions|
  {
    if actions != [] {
      DeadStays(s, actions[0], i, s.threads[i].access);
      AnsweredStays(s, actions[0], i);
      StepKeeps(s, actions[0]);
      RefusedTokensStayRefused(Step(s, actions[0]), actions[1..], t, i, permissions, later);
    }
  }

  /** What a successful token revocation reports: from then on the token is refused. */
  lemma InactiveIsDead(s: State, access: Token, client: string)
    requires Inv(s) && access.kind.AccessSecret? && Inactive(s, access, client)
    requires access.grant in s.grants ==> s.grants[access.grant].value.client == client
    ensures Dead(s, access)
  {
    if access.grant in s.grants { assert GrantOk(s, access.grant, s.grants[access.grant]); }
  }

  /** Success reported for an access token, at once or after a lost write, lasts: no later state accepts the token. */
  lemma {:induction false} RevocationLasts(s: State, a: Action, i: nat, j: nat, client: string, actions: seq<Action>,
      t: State, permissions: Option<seq<string>>, later: int)
    requires Inv(s) && Enabled(s, a) && j < |s.threads| && s.threads[j].Answered?
    requires s.threads[j].access.kind.AccessSecret? && Revokes(s, a, i, s.threads[j].access, client)
    requires i < |Step(s, a).threads| && Step(s, a).threads[i] == Ended(Quiet)
    requires var id := s.threads[j].access.grant;
             id in Step(s, a).grants ==> Step(s, a).grants[id].value.client == client
    requires Run(Step(s, a), actions, t)
    ensures Dead(t, s.threads[j].access) && Verify(t, s.threads[j].access, permissions, later).None?
  {
    var m := Step(s, a);
    StepKeeps(s, a);
    QuietMeansInactive(s, a, i, s.threads[j].access, client);
    InactiveIsDead(m, s.threads[j].access, client);
    AnsweredStays(s, a, j);
    RefusedTokensStayRefused(m, actions, t, j, permissions, later);
  }
}
