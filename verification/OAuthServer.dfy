/** The OAuth authorization server: consent, code exchange, refresh rotation and revocation over a store whose only
    conditional write compares revisions. Each call is a thread that keeps the records it read; what it does between two
    awaits is one step. Digests are constructors, so equal digests mean equal tokens. */
module OAuthServer {
  import opened Basics

  datatype Secret = RequestSecret | CodeSecret | AccessSecret | RefreshSecret
  datatype Token = Token(kind: Secret, grant: nat, nonce: nat)
  datatype Hash = NoHash | Digest(token: Token) | Proof(verifier: string)

  datatype Record<V> = Record(subject: string, expiresAt: int, revision: nat, value: V)

  datatype Pending = Pending(client: string, redirect: string, challenge: Hash, scopes: seq<string>, used: bool)
  datatype Code = Code(client: string, redirect: string, challenge: Hash, grant: nat, used: bool)
  datatype Grant = Grant(client: string, subject: string, resource: string, scopes: seq<string>, createdAt: int,
                         expiresAt: int, revoked: bool, accessHash: Hash, accessExpiresAt: int, refreshHash: Hash,
                         usedRefresh: seq<Hash>)

  const REQUEST_MS := 300_000
  const CODE_MS := 60_000
  const ACCESS_MS := 300_000
  const GRANT_MS := 7 * 86_400_000
  const MAX_ROTATIONS := 2048

  /** What a token response was given for. */
  datatype Credential = ByCode(token: Token) | ByRefresh(token: Token)

  datatype Outcome = Refused | Viewed | Denied | Redirected(code: Token) | Quiet | Unavailable

  /** What follows a revocation: a refusal, a success, or for a losing write one more read. */
  datatype After = Fail | Succeed | Check(client: string, token: Token)

  datatype Purpose = Narrow | Decide

  datatype Thread =
    | Consenting(request: Hash, actor: string, decision: Option<bool>, asked: Record<Pending>)
    | Asking(request: Hash, actor: string, decision: Option<bool>, purpose: Purpose, asked: Record<Pending>,
             change: Record<Pending>, acknowledged: bool)
    | Consented(request: Hash, actor: string, decision: Option<bool>, asked: Record<Pending>)
    | Granting(request: Hash, actor: string, approved: Pending)
    | Coding(actor: string, approved: Pending, id: nat)
    | Redeeming(code: Token, read: Record<Code>)
    | Exchanging(code: Token, read: Record<Code>, base: Record<Grant>)
    | Spending(code: Token, read: Record<Code>, base: Record<Grant>, acknowledged: bool)
    | Refreshing(refresh: Token, wanted: Option<seq<string>>, base: Record<Grant>)
    | Minting(credential: Credential, id: nat, base: Record<Grant>, next: Grant, access: Token, refresh: Token,
              acknowledged: bool)
    | Revoking(id: nat, base: Record<Grant>, later: After)
    | Rereading(id: nat, client: string, token: Token)
    | Answered(credential: Credential, access: Token, refresh: Token)
    | Ended(outcome: Outcome)

  /** Who approved a grant, for which request and with which scopes. */
  datatype Approval = Approval(request: Hash, subject: string, scopes: seq<string>)

  /** `begun` and `approvals` remember what was asked and approved, whatever is pruned since. */
  datatype State = State(resource: string, now: nat, nonce: nat, requests: map<Hash, Record<Pending>>,
      codes: map<Hash, Record<Code>>, grants: map<nat, Record<Grant>>, threads: seq<Thread>,
      begun: map<Hash, seq<string>>, approvals: map<nat, Approval>)

  // ---- The store's conditional write ----

  /** The record as the store keeps it after a successful write over `base`. */
  function Saved<V>(base: Record<V>, next: Record<V>): Record<V> {
    next.(revision := base.revision + 1)
  }

  predicate Matches<K, V>(store: map<K, Record<V>>, key: K, base: Record<V>) {
    key in store && store[key].revision == base.revision
  }

  function Swapped<K, V>(store: map<K, Record<V>>, key: K, base: Record<V>, next: Record<V>): map<K, Record<V>> {
    if Matches(store, key, base) then store[key := Saved(base, next)] else store
  }

  function With(s: State, i: nat, t: Thread): State
    requires i < |s.threads|
  {
    s.(threads := s.threads[i := t])
  }

  function Spawned(s: State, t: Thread): State {
    s.(threads := s.threads + [t])
  }

  function Filtered(scopes: seq<string>, permissions: seq<string>): seq<string> {
    if scopes == [] then []
    else (if scopes[0] in permissions then [scopes[0]] else []) + Filtered(scopes[1..], permissions)
  }

  predicate All(scopes: seq<string>, among: seq<string>) {
    forall x | x in scopes :: x in among
  }

  // ---- Consent and approval ----

  function BegunState(s: State, client: string, redirect: string, challenge: Hash, scopes: seq<string>): State {
    var key := Digest(Token(RequestSecret, 0, s.nonce));
    s.(nonce := s.nonce + 1, begun := s.begun[key := scopes],
       requests := s.requests[key := Record("", s.now + REQUEST_MS, 0,
           Pending(client, redirect, challenge, scopes, false))])
  }

  predicate MayConsent(s: State, request: Hash, actor: string) {
    && request in s.requests && s.requests[request].expiresAt > s.now && !s.requests[request].value.used
    && (s.requests[request].subject == "" || s.requests[request].subject == actor)
  }

  function ConsentOpened(s: State, request: Hash, actor: string, decision: Option<bool>): State {
    Spawned(s, if MayConsent(s, request, actor) then Consenting(request, actor, decision, s.requests[request])
               else Ended(Refused))
  }

  /** The consent after the permissions of its actor are known. */
  function Narrowed(t: Thread, permissions: Option<seq<string>>, now: int): Thread
    requires t.Consenting?
  {
    if permissions.None? then Ended(Refused)
    else
      var scopes := Filtered(t.asked.value.scopes, permissions.value);
      if scopes == [] then Ended(Refused)
      else if t.asked.subject == "" || |scopes| != |t.asked.value.scopes| then
        if t.asked.expiresAt <= now then Ended(Refused)
        else Asking(t.request, t.actor, t.decision, Narrow, t.asked,
                    t.asked.(subject := t.actor, value := t.asked.value.(scopes := scopes)), false)
      else Consented(t.request, t.actor, t.decision, t.asked)
  }

  function Viewing(t: Thread, clientOk: bool, now: int): Thread
    requires t.Consented?
  {
    if !clientOk then Ended(Refused)
    else if t.decision.None? then Ended(Viewed)
    else if t.asked.expiresAt <= now then Ended(Refused)
    else Asking(t.request, t.actor, t.decision, Decide, t.asked, t.asked.(value := t.asked.value.(used := true)), false)
  }

  function AskCommitted(s: State, i: nat): State
    requires i < |s.threads| && s.threads[i].Asking? && !s.threads[i].acknowledged
  {
    var t := s.threads[i];
    With(s, i, if Matches(s.requests, t.request, t.asked)
               then Asking(t.request, t.actor, t.decision, t.purpose, t.asked, t.change, true) else Ended(Refused))
      .(requests := Swapped(s.requests, t.request, t.asked, t.change))
  }

  function AskDone(t: Thread, now: int): Thread
    requires t.Asking?
  {
    if t.change.expiresAt <= now then Ended(Refused)
    else if t.purpose.Narrow? then Consented(t.request, t.actor, t.decision, Saved(t.asked, t.change))
    else if t.decision != Some(true) then Ended(Denied)
    else Granting(t.request, t.actor, t.change.value)
  }

  function GrantInserted(s: State, i: nat): State
    requires i < |s.threads| && s.threads[i].Granting?
  {
    var t := s.threads[i];
    var id, p := s.nonce, t.approved;
    var g := Grant(p.client, t.actor, s.resource, p.scopes, s.now, s.now + GRANT_MS, false, NoHash, 0, NoHash, []);
    With(s, i, Coding(t.actor, p, id))
      .(nonce := s.nonce + 1, grants := s.grants[id := Record(t.actor, g.expiresAt, 0, g)],
        approvals := s.approvals[id := Approval(t.request, t.actor, p.scopes)])
  }

  function CodeInserted(s: State, i: nat): State
    requires i < |s.threads| && s.threads[i].Coding?
  {
    var t := s.threads[i];
    var code, p := Token(CodeSecret, 0, s.nonce), t.approved;
    With(s, i, Ended(Redirected(code)))
      .(nonce := s.nonce + 1,
        codes := s.codes[Digest(code) :=
                   Record(t.actor, s.now + CODE_MS, 0, Code(p.client, p.redirect, p.challenge, t.id, false))])
  }

  // ---- Code exchange ----

  predicate VerifierChar(c: char) {
    'a' <= c <= 'z' || 'A' <= c <= 'Z' || '0' <= c <= '9' || c == '-' || c == '.' || c == '_' || c == '~'
  }

  predicate VerifierOk(v: string) {
    43 <= |v| <= 128 && forall i | 0 <= i < |v| :: VerifierChar(v[i])
  }

  predicate MayRedeem(s: State, code: Token, client: string, redirect: string, verifier: string) {
    && Digest(code) in s.codes && s.codes[Digest(code)].expiresAt > s.now
    && var c := s.codes[Digest(code)].value;
       !c.used && c.client == client && c.redirect == redirect && VerifierOk(verifier) && c.challenge == Proof(verifier)
  }

  function CodePresented(s: State, code: Token, client: string, redirect: string, verifier: string): State {
    Spawned(s, if MayRedeem(s, code, client, redirect, verifier) then Redeeming(code, s.codes[Digest(code)])
               else Ended(Refused))
  }

  predicate GrantLive(s: State, id: nat) {
    id in s.grants && s.grants[id].expiresAt > s.now
  }

  function GrantRead(s: State, i: nat): State
    requires i < |s.threads| && s.threads[i].Redeeming?
  {
    var t := s.threads[i];
    var id := t.read.value.grant;
    With(s, i, if GrantLive(s, id) && !s.grants[id].value.revoked then Exchanging(t.code, t.read, s.grants[id])
               else Ended(Refused))
  }

  function ExchangePermitted(t: Thread, permissions: Option<seq<string>>, now: int): Thread
    requires t.Exchanging?
  {
    if permissions.None? || !All(t.base.value.scopes, permissions.value) then Ended(Refused)
    else if t.read.expiresAt <= now then Ended(Refused)
    else Spending(t.code, t.read, t.base, false)
  }

  function UsedCode(r: Record<Code>): Record<Code> {
    r.(value := r.value.(used := true))
  }

  function CodeCommitted(s: State, i: nat): State
    requires i < |s.threads| && s.threads[i].Spending? && !s.threads[i].acknowledged
  {
    var t := s.threads[i];
    With(s, i, if Matches(s.codes, Digest(t.code), t.read) then Spending(t.code, t.read, t.base, true)
        else Ended(Refused))
      .(codes := Swapped(s.codes, Digest(t.code), t.read, UsedCode(t.read)))
  }

  // ---- Tokens ----

  function Min(a: int, b: int): int { if a < b then a else b }

  /** The grant with freshly drawn tokens. */
  function Tokens(g: Grant, id: nat, nonce: nat, now: int): Grant {
    g.(accessHash := Digest(Token(AccessSecret, id, nonce)), refreshHash := Digest(Token(RefreshSecret, id, nonce)),
       accessExpiresAt := Min(g.expiresAt, now + ACCESS_MS))
  }

  /** Draws tokens for the grant and goes on to write it, if it has not expired. */
  function Minted(s: State, i: nat, credential: Credential, id: nat, base: Record<Grant>, g: Grant): State
    requires i < |s.threads|
  {
    var t := if base.expiresAt <= s.now then Ended(Refused)
             else Minting(credential, id, base, Tokens(g, id, s.nonce, s.now), Token(AccessSecret, id, s.nonce),
                          Token(RefreshSecret, id, s.nonce), false);
    With(s, i, t).(nonce := s.nonce + 1)
  }

  function CodeDone(s: State, i: nat): State
    requires i < |s.threads| && s.threads[i].Spending? && s.threads[i].acknowledged
  {
    var t := s.threads[i];
    if t.read.expiresAt <= s.now then With(s, i, Ended(Refused))
    else Minted(s, i, ByCode(t.code), t.read.value.grant, t.base, t.base.value)
  }

  function MintCommitted(s: State, i: nat): State
    requires i < |s.threads| && s.threads[i].Minting? && !s.threads[i].acknowledged
  {
    var t := s.threads[i];
    With(s, i, if Matches(s.grants, t.id, t.base)
               then Minting(t.credential, t.id, t.base, t.next, t.access, t.refresh, true) else Ended(Refused))
      .(grants := Swapped(s.grants, t.id, t.base, t.base.(value := t.next)))
  }

  function MintDone(t: Thread, now: int): Thread
    requires t.Minting?
  {
    if t.base.expiresAt <= now || t.next.accessExpiresAt - now <= 0 then Ended(Refused)
    else Answered(t.credential, t.access, t.refresh)
  }

  // ---- Refresh ----

  /** A refresh as it starts: refused, revoking a grant whose old token came back, or waiting for permissions. */
  function RefreshOpened(s: State, token: Token, client: string, wanted: Option<seq<string>>): State {
    var id, hash := token.grant, Digest(token);
    Spawned(s,
      if !token.kind.RefreshSecret? || !GrantLive(s, id) then Ended(Refused)
      else
        var g := s.grants[id].value;
        if g.client != client || g.revoked then Ended(Refused)
        else if hash != g.refreshHash then
          if hash in g.usedRefresh then Revoking(id, s.grants[id], Fail) else Ended(Refused)
        else Refreshing(token, wanted, s.grants[id]))
  }

  function Wanted(t: Thread): seq<string>
    requires t.Refreshing?
  {
    if t.wanted.Some? then t.wanted.value else t.base.value.scopes
  }

  function RefreshPermitted(s: State, i: nat, permissions: Option<seq<string>>): State
    requires i < |s.threads| && s.threads[i].Refreshing?
  {
    var t := s.threads[i];
    var g, id := t.base.value, t.refresh.grant;
    if permissions.None? then With(s, i, Ended(Refused))
    else if Wanted(t) == [] || !All(Wanted(t), g.scopes) || !All(Wanted(t), permissions.value) then
      With(s, i, Ended(Refused))
    else if |g.usedRefresh| >= MAX_ROTATIONS then With(s, i, Revoking(id, t.base, Fail))
    else Minted(s, i, ByRefresh(t.refresh), id, t.base,
                g.(scopes := Wanted(t), usedRefresh := g.usedRefresh + [Digest(t.refresh)]))
  }

  // ---- Revocation ----

  function RevokedRecord(r: Record<Grant>): Record<Grant> {
    r.(value := r.value.(revoked := true))
  }

  function RevokeOpened(s: State, id: nat, actor: string): State {
    Spawned(s, if GrantLive(s, id) && s.grants[id].subject == actor then Revoking(id, s.grants[id], Succeed)
               else Ended(Refused))
  }

  /** Whether a token is of no use: its grant is gone, over, revoked, another client's, or has newer tokens. */
  predicate Inactive(s: State, token: Token, client: string) {
    token.grant in s.grants ==>
      var r := s.grants[token.grant];
      r.value.client != client || r.value.revoked || r.expiresAt <= s.now || r.value.expiresAt <= s.now
      || Digest(token) != if token.kind.AccessSecret? then r.value.accessHash else r.value.refreshHash
  }

  function TokenRevokeOpened(s: State, token: Token, client: string): State {
    Spawned(s, if !token.kind.AccessSecret? && !token.kind.RefreshSecret? then Ended(Quiet)
               else if Inactive(s, token, client) || token.grant !in s.grants then Ended(Quiet)
               else Revoking(token.grant, s.grants[token.grant], Check(client, token)))
  }

  function RevokeCommitted(s: State, i: nat): State
    requires i < |s.threads| && s.threads[i].Revoking?
  {
    var t := s.threads[i];
    var won := Matches(s.grants, t.id, t.base);
    With(s, i, if t.later.Check? then if won then Ended(Quiet) else Rereading(t.id, t.later.client, t.later.token)
               else if won && t.later.Succeed? then Ended(Quiet) else Ended(Refused))
      .(grants := Swapped(s.grants, t.id, t.base, RevokedRecord(t.base)))
  }

  /** The store throws instead of answering, whether or not it wrote: a token revocation reads once more. */
  function RevokeLost(s: State, i: nat, written: bool): State
    requires i < |s.threads| && s.threads[i].Revoking? && s.threads[i].later.Check?
  {
    var t := s.threads[i];
    With(s, i, Rereading(t.id, t.later.client, t.later.token))
      .(grants := if written then Swapped(s.grants, t.id, t.base, RevokedRecord(t.base)) else s.grants)
  }

  function Reread(s: State, i: nat): State
    requires i < |s.threads| && s.threads[i].Rereading?
  {
    var t := s.threads[i];
    With(s, i, Ended(if Inactive(s, t.token, t.client) then Quiet else Unavailable))
  }

  // ---- Verification and cleanup ----

  datatype Access = Access(id: nat, subject: string, scopes: seq<string>, expiresAt: int)

  /** What an access token proves; `later` is the time when the permissions arrive. */
  function Verify(s: State, token: Token, permissions: Option<seq<string>>, later: int): Option<Access> {
    if !token.kind.AccessSecret? || !GrantLive(s, token.grant) then None
    else
      var g := s.grants[token.grant].value;
      if g.revoked || g.expiresAt <= s.now || g.resource != s.resource || g.accessExpiresAt <= s.now
         || g.accessHash != Digest(token) || permissions.None? || g.expiresAt <= later || g.accessExpiresAt <= later
      then None
      else Some(Access(token.grant, g.subject, Filtered(g.scopes, permissions.value), g.accessExpiresAt))
  }

  function Kept<K, V>(store: map<K, Record<V>>, before: int, chosen: set<K>): map<K, Record<V>> {
    map k | k in store && !(k in chosen && store[k].expiresAt <= before) :: store[k]
  }

  function Pruned(s: State, before: int, requests: set<Hash>, codes: set<Hash>, grants: set<nat>): State {
    s.(requests := Kept(s.requests, before, requests), codes := Kept(s.codes, before, codes),
       grants := Kept(s.grants, before, grants))
  }
}
