/** The authorization server as it is written: each call reads, checks, assigns fields of the record it holds and then
    asks the store to replace it. Every method is one uninterrupted stretch: it does its step of the model, keeps what
    holds in every reachable state, and says what its caller may rely on. */
module OAuthCalls {
  import opened Basics
  import opened OAuthServer
  import opened OAuthRuns

  /** Durable records of one kind. */
  class RecordStore<K(==), V(==)> {
    var rows: map<K, Record<V>>

    constructor ()
      ensures rows == map[]
    {
      rows := map[];
    }

    method Insert(key: K, record: Record<V>) returns (inserted: bool)
      modifies this
      ensures inserted <==> key !in old(rows)
      ensures rows == if inserted then old(rows)[key := record] else old(rows)
    {
      if key in rows { return false; }
      rows := rows[key := record];
      inserted := true;
    }

    method Read(key: K) returns (record: Option<Record<V>>)
      ensures record == if key in rows then Some(rows[key]) else None
    {
      if key in rows { return Some(rows[key]); }
      record := None;
    }

    /** Writes over the expected revision only, and counts it up. */
    method Replace(key: K, record: Record<V>, expected: nat) returns (replaced: bool)
      modifies this
      ensures replaced <==> key in old(rows) && old(rows)[key].revision == expected
      ensures rows == if replaced then old(rows)[key := record.(revision := expected + 1)] else old(rows)
      ensures forall base: Record<V> | base.revision == expected ::
                replaced == Matches(old(rows), key, base) && rows == Swapped(old(rows), key, base, record)
    {
      if key !in rows || rows[key].revision != expected { return false; }
      rows := rows[key := record.(revision := expected + 1)];
      replaced := true;
    }
  }

  /** `scopes.filter((s) => permissions.includes(s))`. */
  method Intersect(scopes: seq<string>, permissions: seq<string>) returns (kept: seq<string>)
    ensures kept == Filtered(scopes, permissions)
  {
    kept := [];
    var i := |scopes|;
    while i > 0
      invariant 0 <= i <= |scopes| && kept == Filtered(scopes[i..], permissions)
    {
      i := i - 1;
      if scopes[i] in permissions { kept := [scopes[i]] + kept; }
    }
  }

  // ---- What the steps mean for their callers ----

  /** Consent goes on for its actor, with scopes that were asked for and are permitted. */
  ghost predicate ConsentWithin(s: State, t: Thread, permissions: Option<seq<string>>) {
    && (t.Asking? ==> t.change.subject == t.actor && ScopesWithin(s, t.request, t.change.value.scopes, permissions))
    && (t.Consented? ==> t.asked.subject == t.actor && ScopesWithin(s, t.request, t.asked.value.scopes, permissions))
  }

  ghost predicate ScopesWithin(s: State, request: Hash, scopes: seq<string>, permissions: Option<seq<string>>) {
    && permissions.Some? && All(scopes, permissions.value)
    && request in s.begun && All(scopes, s.begun[request])
  }

  lemma PermitMeans(s: State, i: nat, permissions: Option<seq<string>>)
    requires Inv(s) && i < |s.threads| && s.threads[i].Consenting?
    ensures var t := With(s, i, Narrowed(s.threads[i], permissions, s.now)); ConsentWithin(t, t.threads[i], permissions)
  {
    assert ThreadOk(s, s.threads[i]);
    if permissions.Some? {
      FilteredIsWithin(s.threads[i].asked.value.scopes, permissions.value);
      FilteredKeepsAll(s.threads[i].asked.value.scopes, permissions.value);
    }
  }

  /** The call has won something that the store shows as gone, and no other call has. */
  ghost predicate WonAlone(s: State, i: nat, c: Claim) {
    && Gone(s, c)
    && (forall j {:trigger ClaimOf(s.threads[j])} | 0 <= j < |s.threads| && j != i :: ClaimOf(s.threads[j]) != Some(c))
    && (forall id | id in s.approvals :: c != Approving(s.approvals[id].request))
  }

  lemma ClaimIsWonAlone(s: State, i: nat)
    requires Inv(s) && i < |s.threads| && ClaimOf(s.threads[i]).Some?
    ensures WonAlone(s, i, ClaimOf(s.threads[i]).value)
  {
    assert ClaimGone(s, ClaimOf(s.threads[i]));
  }

  /** No call has won the credential. */
  ghost predicate Untried(s: State, credential: Credential) {
    forall j {:trigger ClaimOf(s.threads[j])} | 0 <= j < |s.threads| ::
      ClaimOf(s.threads[j]) != Some(Holding(credential))
  }

  lemma NotGoneIsUntried(s: State, credential: Credential)
    requires Inv(s) && !Gone(s, Holding(credential))
    ensures Untried(s, credential)
  {
    forall j | 0 <= j < |s.threads| ensures ClaimOf(s.threads[j]) != Some(Holding(credential)) {
      assert ClaimGone(s, ClaimOf(s.threads[j]));
    }
  }

  /** The grant's approval is the only one of its request, and gives no more than was asked. */
  ghost predicate OnlyApproval(s: State, id: nat) {
    && id in s.approvals && s.approvals[id].request in s.begun
          && All(s.approvals[id].scopes, s.begun[s.approvals[id].request])
    && (forall other | other in s.approvals && other != id :: s.approvals[other].request != s.approvals[id].request)
  }

  lemma ApprovalIsOnly(s: State, id: nat)
    requires Inv(s) && id in s.approvals
    ensures OnlyApproval(s, id)
  {
    assert ApprovalOk(s, s.approvals[id]);
  }

  /** The code can be taken up by the approved client alone, with its redirect and its verifier. */
  ghost predicate RedeemableBy(s: State, code: Token, approved: Pending) {
    forall client, redirect, verifier ::
      MayRedeem(s, code, client, redirect, verifier) <==>
        client == approved.client && redirect == approved.redirect && VerifierOk(verifier)
            && approved.challenge == Proof(verifier)
  }

  lemma NewCodeIsUntried(s: State, i: nat)
    requires Inv(s) && i < |s.threads| && s.threads[i].Coding?
    ensures var t, code := CodeInserted(s, i), Token(CodeSecret, 0, s.nonce);
            Untried(t, ByCode(code)) && RedeemableBy(t, code, s.threads[i].approved)
  {
    NotGoneIsUntried(s, ByCode(Token(CodeSecret, 0, s.nonce)));
  }

  lemma PresentedCodeIsUntried(s: State, code: Token, client: string, redirect: string, verifier: string)
    requires Inv(s)
    ensures var t := CodePresented(s, code, client, redirect, verifier);
            t.threads[|s.threads|].Redeeming? ==> Untried(t, ByCode(code))
  {
    if MayRedeem(s, code, client, redirect, verifier) { NotGoneIsUntried(s, ByCode(code)); }
  }

  /** A refresh starts as a replay exactly for a rotated token, and otherwise goes on only with one nobody has used. */
  lemma PresentedRefreshIsUntried(s: State, token: Token, client: string, wanted: Option<seq<string>>)
    requires Inv(s)
    ensures var t := RefreshOpened(s, token, client, wanted);
            && (t.threads[|s.threads|].Revoking? <==> Replays(s, token, client))
            && (t.threads[|s.threads|].Refreshing? ==> Untried(t, ByRefresh(token)))
  {
    var t := RefreshOpened(s, token, client, wanted);
    if t.threads[|s.threads|].Refreshing? {
      assert GrantOk(s, token.grant, s.grants[token.grant]);
      NotGoneIsUntried(s, ByRefresh(token));
    }
  }

  /** New tokens are asked for within the grant and the permissions, with the old token among the rotated ones. */
  ghost predicate RotatesWithin(t: Thread, permissions: Option<seq<string>>)
    requires t.Minting?
  {
    && permissions.Some? && All(t.next.scopes, permissions.value) && All(t.next.scopes, t.base.value.scopes)
    && t.credential.ByRefresh? && Digest(t.credential.token) in t.next.usedRefresh
    && t.base.value.usedRefresh <= t.next.usedRefresh && |t.next.usedRefresh| <= MAX_ROTATIONS
    && t.next.accessExpiresAt <= t.next.expiresAt
  }

  lemma RefreshMeans(s: State, i: nat, permissions: Option<seq<string>>)
    requires Inv(s) && i < |s.threads| && s.threads[i].Refreshing?
    ensures var t := RefreshPermitted(s, i, permissions);
            Follows(s, t) && (t.threads[i].Minting? ==> RotatesWithin(t.threads[i], permissions))
  {
    var th := s.threads[i];
    RefreshingKeeps(s, i, permissions);
    if MayRotate(th, permissions) {
      assert ThreadOk(s, th);
      RotatedIsOk(s, th.refresh, th.base, Wanted(th));
    }
  }

  /** The winner spends the very record it read; a loser's record was written since, or pruned. */
  lemma CodeCommitMeans(s: State, i: nat)
    requires Inv(s) && i < |s.threads| && s.threads[i].Spending? && !s.threads[i].acknowledged
    ensures var was, t := s.threads[i], CodeCommitted(s, i);
            if t.threads[i].Spending?
            then Digest(was.code) in s.codes && s.codes[Digest(was.code)] == was.read
                 && WonAlone(t, i, Holding(ByCode(was.code)))
            else Digest(was.code) in s.codes ==> was.read.revision < s.codes[Digest(was.code)].revision
  {
    assert ThreadOk(s, s.threads[i]);
    CodeCommittedKeeps(s, i);
    if Matches(s.codes, Digest(s.threads[i].code), s.threads[i].read) { ClaimIsWonAlone(CodeCommitted(s, i), i); }
  }

  /** No other access token of the grant is accepted. */
  ghost predicate OnlyAccess(s: State, id: nat, access: Token) {
    forall token: Token, permissions, later | token.grant == id && token != access ::
      Verify(s, token, permissions, later).None?
  }

  /** No access token of the grant is accepted. */
  ghost predicate NoAccess(s: State, id: nat) {
    forall token: Token, permissions, later | token.grant == id :: Verify(s, token, permissions, later).None?
  }

  lemma MintCommitMeans(s: State, i: nat)
    requires Inv(s) && i < |s.threads| && s.threads[i].Minting? && !s.threads[i].acknowledged
    ensures var was, t := s.threads[i], MintCommitted(s, i);
            if t.threads[i].Minting?
            then was.id in s.grants && s.grants[was.id] == was.base && !was.base.value.revoked
                 && WonAlone(t, i, Holding(was.credential)) && OnlyAccess(t, was.id, was.access)
            else was.id in s.grants ==> was.base.revision < s.grants[was.id].revision
  {
    assert ThreadOk(s, s.threads[i]);
    MintCommittedKeeps(s, i);
    if Matches(s.grants, s.threads[i].id, s.threads[i].base) { ClaimIsWonAlone(MintCommitted(s, i), i); }
  }

  lemma AskDoneMeans(s: State, i: nat)
    requires Inv(s) && i < |s.threads| && s.threads[i].Asking? && s.threads[i].acknowledged
    ensures var t := With(s, i, AskDone(s.threads[i], s.now));
            Follows(s, t) && (t.threads[i].Granting? ==> WonAlone(t, i, Approving(t.threads[i].request)))
  {
    var t := With(s, i, AskDone(s.threads[i], s.now));
    AskDoneKeeps(s, i);
    if t.threads[i].Granting? { ClaimIsWonAlone(t, i); }
  }

  lemma MintDoneMeans(s: State, i: nat)
    requires Inv(s) && i < |s.threads| && s.threads[i].Minting? && s.threads[i].acknowledged
    ensures var t := With(s, i, MintDone(s.threads[i], s.now));
            Follows(s, t) && (t.threads[i].Answered? ==> WonAlone(t, i, Holding(t.threads[i].credential)))
  {
    var t := With(s, i, MintDone(s.threads[i], s.now));
    MintDoneKeeps(s, i);
    if t.threads[i].Answered? { ClaimIsWonAlone(t, i); }
  }

  lemma GrantInsertedMeans(s: State, i: nat)
    requires Inv(s) && i < |s.threads| && s.threads[i].Granting?
    ensures var t := GrantInserted(s, i);
            Follows(s, t) && OnlyApproval(t, s.nonce) && NoAccess(t, s.nonce) && s.nonce !in s.grants
  {
    GrantInsertedKeeps(s, i);
    NextIsUnused(s);
    ApprovalIsOnly(GrantInserted(s, i), s.nonce);
  }

  lemma BegunMeans(s: State, client: string, redirect: string, challenge: Hash, scopes: seq<string>)
    requires Inv(s)
    ensures Follows(s, BegunState(s, client, redirect, challenge, scopes))
    ensures Digest(Token(RequestSecret, 0, s.nonce)) !in s.requests
  {
    BegunKeeps(s, client, redirect, challenge, scopes);
    NextIsUnused(s);
  }

  /** In every reachable state the secret or id drawn next is unused. */
  lemma NextIsUnused(s: State)
    requires Inv(s)
    ensures Digest(Token(RequestSecret, 0, s.nonce)) !in s.requests && Digest(Token(CodeSecret, 0, s.nonce)) !in s.codes
    ensures s.nonce !in s.grants
  {
    assert s.nonce in s.grants ==> GrantOk(s, s.nonce, s.grants[s.nonce]);
  }

  class Server {
    const resource: string
    var now: nat
    var nonce: nat
    const requests: RecordStore<Hash, Pending>
    const codes: RecordStore<Hash, Code>
    const grants: RecordStore<nat, Grant>
    var threads: seq<Thread>
    var begun: map<Hash, seq<string>>
    var approvals: map<nat, Approval>

    ghost function Now(): State
      reads this, requests, codes, grants
    {
      State(resource, now, nonce, requests.rows, codes.rows, grants.rows, threads, begun, approvals)
    }

    constructor (resource: string, now: nat)
      ensures Now() == State(resource, now, 0, map[], map[], map[], [], map[], map[]) && Inv(Now())
      ensures fresh(requests) && fresh(codes) && fresh(grants)
    {
      this.resource, this.now, nonce := resource, now, 0;
      requests := new RecordStore();
      codes := new RecordStore();
      grants := new RecordStore();
      threads, begun, approvals := [], map[], map[];
    }

    method Begin(client: string, redirect: string, challenge: Hash, scopes: seq<string>) returns (secret: Token)
      requires Inv(Now())
      modifies this, requests
      ensures Now() == BegunState(old(Now()), client, redirect, challenge, scopes)
      ensures secret == Token(RequestSecret, 0, old(nonce))
      ensures Follows(old(Now()), Now())
      ensures requests.rows == old(requests.rows)[Digest(secret) :=
                Record("", now + 300_000, 0, Pending(client, redirect, challenge, scopes, false))]
    {
      hide Inv, Follows;
      BegunMeans(Now(), client, redirect, challenge, scopes);
      secret := Token(RequestSecret, 0, nonce);
      nonce := nonce + 1;
      begun := begun[Digest(secret) := scopes];
      var inserted := requests.Insert(Digest(secret),
                        Record("", now + REQUEST_MS, 0, Pending(client, redirect, challenge, scopes, false)));
    }

    method OpenConsent(request: Hash, actor: string, decision: Option<bool>)
      requires Inv(Now())
      modifies this
      ensures Now() == ConsentOpened(old(Now()), request, actor, decision)
      ensures Follows(old(Now()), Now())
      ensures threads[|old(threads)|].Consenting? <==>
                && request in requests.rows && now < requests.rows[request].expiresAt
                      && !requests.rows[request].value.used
                && (requests.rows[request].subject == "" || requests.rows[request].subject == actor)
    {
      hide Inv, Follows;
      ConsentOpenedKeeps(Now(), request, actor, decision);
      var read := requests.Read(request);
      if read.None? || read.value.expiresAt <= now || read.value.value.used
         || (read.value.subject != "" && read.value.subject != actor) {
        threads := threads + [Ended(Refused)];
      } else {
        threads := threads + [Consenting(request, actor, decision, read.value)];
      }
    }

    method Permit(i: nat, permissions: Option<seq<string>>)
      requires Inv(Now()) && i < |threads| && threads[i].Consenting?
      modifies this`threads
      ensures Now() == With(old(Now()), i, Narrowed(old(threads[i]), permissions, now))
      ensures Follows(old(Now()), Now())
      ensures ConsentWithin(Now(), threads[i], permissions)
    {
      hide Inv, Follows, ConsentWithin;
      ConsentingKeeps(Now(), i, permissions);
      PermitMeans(Now(), i, permissions);
      var t := threads[i];
      if permissions.None? {
        threads := threads[i := Ended(Refused)];
        return;
      }
      var scopes := Intersect(t.asked.value.scopes, permissions.value);
      if scopes == [] {
        threads := threads[i := Ended(Refused)];
      } else if t.asked.subject != "" && |scopes| == |t.asked.value.scopes| {
        threads := threads[i := Consented(t.request, t.actor, t.decision, t.asked)];
      } else if t.asked.expiresAt <= now {
        threads := threads[i := Ended(Refused)];
      } else {
        var change := t.asked.(subject := t.actor, value := t.asked.value.(scopes := scopes));
        threads := threads[i := Asking(t.request, t.actor, t.decision, Narrow, t.asked, change, false)];
      }
    }

    method View(i: nat, clientOk: bool)
      requires Inv(Now()) && i < |threads| && threads[i].Consented?
      modifies this`threads
      ensures Now() == With(old(Now()), i, Viewing(old(threads[i]), clientOk, now))
      ensures Follows(old(Now()), Now())
    {
      hide Inv, Follows;
      ViewKeeps(Now(), i, clientOk);
      var t := threads[i];
      if !clientOk {
        threads := threads[i := Ended(Refused)];
      } else if t.decision.None? {
        threads := threads[i := Ended(Viewed)];
      } else if t.asked.expiresAt <= now {
        threads := threads[i := Ended(Refused)];
      } else {
        var change := t.asked.(value := t.asked.value.(used := true));
        threads := threads[i := Asking(t.request, t.actor, t.decision, Decide, t.asked, change, false)];
      }
    }

    method CommitAsk(i: nat)
      requires Inv(Now()) && i < |threads| && threads[i].Asking? && !threads[i].acknowledged
      modifies this`threads, requests
      ensures Now() == AskCommitted(old(Now()), i)
      ensures Follows(old(Now()), Now())
    {
      hide Inv, Follows;
      AskCommittedKeeps(Now(), i);
      var t := threads[i];
      var replaced := requests.Replace(t.request, t.change, t.asked.revision);
      if replaced {
        threads := threads[i := Asking(t.request, t.actor, t.decision, t.purpose, t.asked, t.change, true)];
      } else {
        threads := threads[i := Ended(Refused)];
      }
    }

    method AcknowledgeAsk(i: nat)
      requires Inv(Now()) && i < |threads| && threads[i].Asking? && threads[i].acknowledged
      modifies this`threads
      ensures Now() == With(old(Now()), i, AskDone(old(threads[i]), now))
      ensures Follows(old(Now()), Now())
      ensures threads[i].Granting? ==> WonAlone(Now(), i, Approving(threads[i].request))
    {
      hide Inv, Follows, WonAlone;
      AskDoneMeans(Now(), i);
      var t := threads[i];
      if t.change.expiresAt <= now {
        threads := threads[i := Ended(Refused)];
      } else if t.purpose.Narrow? {
        threads := threads[i := Consented(t.request, t.actor, t.decision, t.change.(revision := t.asked.revision + 1))];
      } else if t.decision != Some(true) {
        threads := threads[i := Ended(Denied)];
      } else {
        threads := threads[i := Granting(t.request, t.actor, t.change.value)];
      }
    }

    method InsertGrant(i: nat)
      requires Inv(Now()) && i < |threads| && threads[i].Granting?
      modifies this, grants
      ensures Now() == GrantInserted(old(Now()), i)
      ensures Follows(old(Now()), Now())
      ensures old(nonce) in grants.rows && OnlyApproval(Now(), old(nonce))
      ensures NoAccess(Now(), old(nonce))
    {
      hide Inv, Follows, OnlyApproval, NoAccess;
      GrantInsertedMeans(Now(), i);
      var t := threads[i];
      var id, p := nonce, t.approved;
      nonce := nonce + 1;
      var g := Grant(p.client, t.actor, resource, p.scopes, now, now + GRANT_MS, false, NoHash, 0, NoHash, []);
      var inserted := grants.Insert(id, Record(t.actor, g.expiresAt, 0, g));
      approvals := approvals[id := Approval(t.request, t.actor, p.scopes)];
      threads := threads[i := Coding(t.actor, p, id)];
    }

    method InsertCode(i: nat)
      requires Inv(Now()) && i < |threads| && threads[i].Coding?
      modifies this, codes
      ensures Now() == CodeInserted(old(Now()), i)
      ensures Follows(old(Now()), Now())
      ensures threads[i].Ended? && threads[i].outcome.Redirected?
              && RedeemableBy(Now(), threads[i].outcome.code, old(threads[i]).approved)
              && Untried(Now(), ByCode(threads[i].outcome.code))
    {
      hide Inv, Follows, RedeemableBy, Untried;
      CodeInsertedKeeps(Now(), i);
      NextIsUnused(Now());
      NewCodeIsUntried(Now(), i);
      var t := threads[i];
      var code, p := Token(CodeSecret, 0, nonce), t.approved;
      nonce := nonce + 1;
      var inserted := codes.Insert(Digest(code),
                        Record(t.actor, now + CODE_MS, 0, Code(p.client, p.redirect, p.challenge, t.id, false)));
      threads := threads[i := Ended(Redirected(code))];
    }

    method PresentCode(code: Token, client: string, redirect: string, verifier: string)
      requires Inv(Now())
      modifies this
      ensures Now() == CodePresented(old(Now()), code, client, redirect, verifier)
      ensures Follows(old(Now()), Now())
      ensures threads[|old(threads)|].Redeeming? <==>
                && Digest(code) in codes.rows && now < codes.rows[Digest(code)].expiresAt
                && var c := codes.rows[Digest(code)].value;
                   !c.used && c.client == client && c.redirect == redirect && c.challenge == Proof(verifier)
                   && 43 <= |verifier| <= 128
                   && forall i | 0 <= i < |verifier| ::
                        || 'a' <= verifier[i] <= 'z' || 'A' <= verifier[i] <= 'Z' || '0' <= verifier[i] <= '9'
                        || verifier[i] in "-._~"
      ensures threads[|old(threads)|].Redeeming? ==> Untried(Now(), ByCode(code))
    {
      hide Inv, Follows, Untried;
      CodePresentedKeeps(Now(), code, client, redirect, verifier);
      PresentedCodeIsUntried(Now(), code, client, redirect, verifier);
      var read := codes.Read(Digest(code));
      if read.None? || read.value.expiresAt <= now || read.value.value.used || read.value.value.client != client
         || read.value.value.redirect != redirect || !VerifierOk(verifier)
         || Proof(verifier) != read.value.value.challenge {
        threads := threads + [Ended(Refused)];
      } else {
        threads := threads + [Redeeming(code, read.value)];
      }
    }

    method ReadGrant(i: nat)
      requires Inv(Now()) && i < |threads| && threads[i].Redeeming?
      modifies this`threads
      ensures Now() == GrantRead(old(Now()), i)
      ensures Follows(old(Now()), Now())
      ensures var id := old(threads[i]).read.value.grant;
              threads[i].Exchanging? <==>
                id in grants.rows && now < grants.rows[id].expiresAt && !grants.rows[id].value.revoked
    {
      hide Inv, Follows;
      ReadGrantKeeps(Now(), i);
      var t := threads[i];
      var read := grants.Read(t.read.value.grant);
      if read.None? || read.value.expiresAt <= now || read.value.value.revoked {
        threads := threads[i := Ended(Refused)];
      } else {
        threads := threads[i := Exchanging(t.code, t.read, read.value)];
      }
    }

    method PermitExchange(i: nat, permissions: Option<seq<string>>)
      requires Inv(Now()) && i < |threads| && threads[i].Exchanging?
      modifies this`threads
      ensures Now() == With(old(Now()), i, ExchangePermitted(old(threads[i]), permissions, now))
      ensures Follows(old(Now()), Now())
      ensures var was := old(threads[i]);
              threads[i].Spending? <==>
                && permissions.Some? && now < was.read.expiresAt
                && forall x | x in was.base.value.scopes :: x in permissions.value
    {
      hide Inv, Follows;
      ExchangingKeeps(Now(), i, permissions);
      var t := threads[i];
      if permissions.None? || !All(t.base.value.scopes, permissions.value) || t.read.expiresAt <= now {
        threads := threads[i := Ended(Refused)];
      } else {
        threads := threads[i := Spending(t.code, t.read, t.base, false)];
      }
    }

    method CommitCode(i: nat)
      requires Inv(Now()) && i < |threads| && threads[i].Spending? && !threads[i].acknowledged
      modifies this`threads, codes
      ensures Now() == CodeCommitted(old(Now()), i)
      ensures Follows(old(Now()), Now())
      ensures var was := old(threads[i]);
              if threads[i].Spending?
              then Digest(was.code) in old(codes.rows) && old(codes.rows)[Digest(was.code)] == was.read
                   && WonAlone(Now(), i, Holding(ByCode(was.code)))
              else Digest(was.code) in old(codes.rows) ==>
                  was.read.revision < old(codes.rows)[Digest(was.code)].revision
    {
      hide Inv, Follows, WonAlone;
      CodeCommittedKeeps(Now(), i);
      CodeCommitMeans(Now(), i);
      var t := threads[i];
      var replaced := codes.Replace(Digest(t.code), t.read.(value := t.read.value.(used := true)), t.read.revision);
      threads := threads[i := if replaced then Spending(t.code, t.read, t.base, true) else Ended(Refused)];
    }

    /** Draws both tokens and goes on to store their digests, unless the grant has run out. */
    method Mint(i: nat, credential: Credential, id: nat, base: Record<Grant>, g: Grant)
      requires i < |threads|
      modifies this`threads, this`nonce
      ensures Now() == Minted(old(Now()), i, credential, id, base, g)
    {
      var access, refresh := Token(AccessSecret, id, nonce), Token(RefreshSecret, id, nonce);
      nonce := nonce + 1;
      var expiresAt := now + ACCESS_MS;
      if g.expiresAt <= expiresAt { expiresAt := g.expiresAt; }
      var next := g.(accessHash := Digest(access), refreshHash := Digest(refresh), accessExpiresAt := expiresAt);
      if base.expiresAt <= now {
        threads := threads[i := Ended(Refused)];
      } else {
        threads := threads[i := Minting(credential, id, base, next, access, refresh, false)];
      }
    }

    method AcknowledgeCode(i: nat)
      requires Inv(Now()) && i < |threads| && threads[i].Spending? && threads[i].acknowledged
      modifies this`threads, this`nonce
      ensures Now() == CodeDone(old(Now()), i)
      ensures Follows(old(Now()), Now())
    {
      hide Inv, Follows;
      CodeDoneKeeps(Now(), i);
      var t := threads[i];
      if t.read.expiresAt <= now {
        threads := threads[i := Ended(Refused)];
      } else {
        Mint(i, ByCode(t.code), t.read.value.grant, t.base, t.base.value);
      }
    }

    method CommitMint(i: nat)
      requires Inv(Now()) && i < |threads| && threads[i].Minting? && !threads[i].acknowledged
      modifies this`threads, grants
      ensures Now() == MintCommitted(old(Now()), i)
      ensures Follows(old(Now()), Now())
      ensures var was := old(threads[i]);
              if threads[i].Minting?
              then was.id in old(grants.rows) && old(grants.rows)[was.id] == was.base && !was.base.value.revoked
                   && WonAlone(Now(), i, Holding(was.credential)) && OnlyAccess(Now(), was.id, was.access)
              else was.id in old(grants.rows) ==> was.base.revision < old(grants.rows)[was.id].revision
    {
      hide Inv, Follows, WonAlone, OnlyAccess;
      MintCommitMeans(Now(), i);
      MintCommittedKeeps(Now(), i);
      var t := threads[i];
      var replaced := grants.Replace(t.id, t.base.(value := t.next), t.base.revision);
      threads := threads[i := if replaced then Minting(t.credential, t.id, t.base, t.next, t.access, t.refresh, true)
                              else Ended(Refused)];
    }

    method AcknowledgeMint(i: nat)
      requires Inv(Now()) && i < |threads| && threads[i].Minting? && threads[i].acknowledged
      modifies this`threads
      ensures Now() == With(old(Now()), i, MintDone(old(threads[i]), now))
      ensures Follows(old(Now()), Now())
      ensures threads[i].Answered? ==> WonAlone(Now(), i, Holding(threads[i].credential))
    {
      hide Inv, Follows, WonAlone;
      MintDoneMeans(Now(), i);
      var t := threads[i];
      if t.base.expiresAt <= now || t.next.accessExpiresAt - now <= 0 {
        threads := threads[i := Ended(Refused)];
      } else {
        threads := threads[i := Answered(t.credential, t.access, t.refresh)];
      }
    }

    method PresentRefresh(token: Token, client: string, wanted: Option<seq<string>>)
      requires Inv(Now())
      modifies this
      ensures Now() == RefreshOpened(old(Now()), token, client, wanted)
      ensures Follows(old(Now()), Now())
      ensures threads[|old(threads)|].Revoking? <==> Replays(old(Now()), token, client)
      ensures threads[|old(threads)|].Refreshing? ==> Untried(Now(), ByRefresh(token))
    {
      hide Inv, Follows, Untried;
      RefreshOpenedKeeps(Now(), token, client, wanted);
      PresentedRefreshIsUntried(Now(), token, client, wanted);
      var t := Ended(Refused);
      if token.kind.RefreshSecret? {
        var read := grants.Read(token.grant);
        if read.Some? && read.value.expiresAt > now && read.value.value.client == client && !read.value.value.revoked {
          if Digest(token) == read.value.value.refreshHash {
            t := Refreshing(token, wanted, read.value);
          } else if Digest(token) in read.value.value.usedRefresh {
            t := Revoking(token.grant, read.value, Fail);
          }
        }
      }
      threads := threads + [t];
    }

    method PermitRefresh(i: nat, permissions: Option<seq<string>>)
      requires Inv(Now()) && i < |threads| && threads[i].Refreshing?
      modifies this`threads, this`nonce
      ensures Now() == RefreshPermitted(old(Now()), i, permissions)
      ensures Follows(old(Now()), Now())
      ensures threads[i].Minting? ==> RotatesWithin(threads[i], permissions)
    {
      hide Inv, Follows;
      RefreshMeans(Now(), i, permissions);
      Rotate(i, permissions);
    }

    method Rotate(i: nat, permissions: Option<seq<string>>)
      requires i < |threads| && threads[i].Refreshing?
      modifies this`threads, this`nonce
      ensures Now() == RefreshPermitted(old(Now()), i, permissions)
    {
      var t := threads[i];
      var g := t.base.value;
      if permissions.None? {
        threads := threads[i := Ended(Refused)];
        return;
      }
      var requested := g.scopes;
      if t.wanted.Some? { requested := t.wanted.value; }
      if requested == [] || !All(requested, g.scopes) || !All(requested, permissions.value) {
        threads := threads[i := Ended(Refused)];
      } else if |g.usedRefresh| >= MAX_ROTATIONS {
        threads := threads[i := Revoking(t.refresh.grant, t.base, Fail)];
      } else {
        Mint(i, ByRefresh(t.refresh), t.refresh.grant, t.base,
             g.(scopes := requested, usedRefresh := g.usedRefresh + [Digest(t.refresh)]));
      }
    }

    method RevokeGrant(id: nat, actor: string)
      requires Inv(Now())
      modifies this
      ensures Now() == RevokeOpened(old(Now()), id, actor)
      ensures Follows(old(Now()), Now())
      ensures threads[|old(threads)|].Revoking? <==>
                id in grants.rows && now < grants.rows[id].expiresAt && grants.rows[id].subject == actor
    {
      hide Inv, Follows;
      RevokeOpenedKeeps(Now(), id, actor);
      var read := grants.Read(id);
      if read.None? || read.value.expiresAt <= now || read.value.subject != actor {
        threads := threads + [Ended(Refused)];
      } else {
        threads := threads + [Revoking(id, read.value, Succeed)];
      }
    }

    method RevokeToken(token: Token, client: string)
      requires Inv(Now())
      modifies this
      ensures Now() == TokenRevokeOpened(old(Now()), token, client)
      ensures Follows(old(Now()), Now())
      ensures threads[|old(threads)|].Revoking? <==>
                && (token.kind.AccessSecret? || token.kind.RefreshSecret?) && token.grant in grants.rows
                && var r := grants.rows[token.grant];
                   r.value.client == client && !r.value.revoked && now < r.expiresAt && now < r.value.expiresAt
                   && Digest(token) == if token.kind.AccessSecret? then r.value.accessHash else r.value.refreshHash
    {
      hide Inv, Follows;
      TokenRevokeOpenedKeeps(Now(), token, client);
      if !token.kind.AccessSecret? && !token.kind.RefreshSecret? {
        threads := threads + [Ended(Quiet)];
        return;
      }
      var read := grants.Read(token.grant);
      var idle := IsIdle(read, token, client);
      threads := threads + [if idle then Ended(Quiet) else Revoking(token.grant, read.value, Check(client, token))];
    }

    method IsIdle(read: Option<Record<Grant>>, token: Token, client: string) returns (idle: bool)
      requires read == if token.grant in grants.rows then Some(grants.rows[token.grant]) else None
      ensures idle <==> Inactive(Now(), token, client)
      ensures read.None? ==> idle
    {
      if read.None? { return true; }
      var g := read.value.value;
      idle := g.client != client || g.revoked || read.value.expiresAt <= now || g.expiresAt <= now
              || Digest(token) != if token.kind.AccessSecret? then g.accessHash else g.refreshHash;
    }

    method CommitRevoke(i: nat)
      requires Inv(Now()) && i < |threads| && threads[i].Revoking?
      modifies this`threads, grants
      ensures Now() == RevokeCommitted(old(Now()), i)
      ensures Follows(old(Now()), Now())
      ensures var was := old(threads[i]);
              threads[i] == Ended(Quiet) && was.id in grants.rows ==>
                && grants.rows[was.id].value.revoked
                && NoAccess(Now(), was.id)
      ensures old(threads[i]).later.Fail? ==> threads[i] == Ended(Refused)
    {
      hide Inv, Follows;
      RevokeCommittedKeeps(Now(), i);
      var t := threads[i];
      var changed := grants.Replace(t.id, t.base.(value := t.base.value.(revoked := true)), t.base.revision);
      var next := Ended(Refused);
      if changed && !t.later.Fail? { next := Ended(Quiet); }
      if !changed && t.later.Check? { next := Rereading(t.id, t.later.client, t.later.token); }
      threads := threads[i := next];
    }

    method ReadAgain(i: nat)
      requires Inv(Now()) && i < |threads| && threads[i].Rereading?
      modifies this`threads
      ensures Now() == Reread(old(Now()), i)
      ensures Follows(old(Now()), Now())
      ensures threads[i] == Ended(Quiet) ==> Inactive(Now(), old(threads[i]).token, old(threads[i]).client)
    {
      hide Inv, Follows;
      CallMovesTo(Now(), i, Reread(Now(), i).threads[i]);
      var t := threads[i];
      var read := grants.Read(t.token.grant);
      var idle := IsIdle(read, t.token, t.client);
      threads := threads[i := Ended(if idle then Quiet else Unavailable)];
    }

    /** The store throws on a token revocation's write, before or after making it. */
    method LoseRevoke(i: nat, written: bool)
      requires Inv(Now()) && i < |threads| && threads[i].Revoking? && threads[i].later.Check?
      modifies this`threads, grants
      ensures Now() == RevokeLost(old(Now()), i, written)
      ensures Follows(old(Now()), Now())
    {
      hide Inv, Follows;
      RevokeLostKeeps(Now(), i, written);
      var t := threads[i];
      if written {
        var changed := grants.Replace(t.id, t.base.(value := t.base.value.(revoked := true)), t.base.revision);
      }
      threads := threads[i := Rereading(t.id, t.later.client, t.later.token)];
    }
  }
}
