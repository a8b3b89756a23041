/** What the authorization server gives when nothing stands in the way: a yes leads to a code, a code to tokens, a
    refresh token to new ones, and the access token handed out last is accepted until it runs out. */
module OAuthService {
  import opened Basics
  import opened OAuthServer
  import opened OAuthRuns

  lemma {:induction false} TwoSteps(s: State, a: Action, b: Action)
    requires Enabled(s, a) && Enabled(Step(s, a), b)
    ensures Run(s, [a, b], Step(Step(s, a), b))
  {
    hide Step, Enabled;
    assert [a, b][1..] == [b] && [b][1..] == [];
    assert Run(Step(s, a), [b], Step(Step(s, a), b));
  }

  // ---- From a yes to a code ----

  /** The call may decide on a request that nobody has written since it read it. */
  ghost predicate MayDecide(s: State, i: nat) {
    && i < |s.threads| && s.threads[i].Consented? && s.threads[i].decision == Some(true)
    && s.threads[i].asked.expiresAt > s.now
    && s.threads[i].request in s.requests && s.requests[s.threads[i].request] == s.threads[i].asked
  }

  /** Undisturbed, such a call ends with a code for the approved client, redirect and challenge, and with a grant of
      exactly the approved scopes. */
  lemma YesGivesACode(s: State, i: nat) returns (t: State)
    requires MayDecide(s, i)
    ensures Run(s, [View(i, true), Commit(i), Acknowledge(i)] + [InsertGrant(i), InsertCode(i)], t)
    ensures var p, code := s.threads[i].asked.value, Token(CodeSecret, 0, s.nonce + 1);
            && i < |t.threads| && t.threads[i] == Ended(Redirected(code)) && Digest(code) in t.codes
                  && s.nonce in t.grants
            && t.codes[Digest(code)].value == Code(p.client, p.redirect, p.challenge, s.nonce, false)
            && t.codes[Digest(code)].expiresAt == s.now + 60_000
            && t.grants[s.nonce].value.scopes == p.scopes && t.grants[s.nonce].subject == s.threads[i].actor
            && !t.grants[s.nonce].value.revoked && t.grants[s.nonce].expiresAt == s.now + 604_800_000
            && t.now == s.now && s.nonce in t.approvals
            && t.approvals[s.nonce] == Approval(s.threads[i].request, s.threads[i].actor, p.scopes)
  {
    var m := DecidesYes(s, i);
    t := Step(Step(m, InsertGrant(i)), InsertCode(i));
    TwoSteps(m, InsertGrant(i), InsertCode(i));
    RunJoins(s, [View(i, true), Commit(i), Acknowledge(i)], m, [InsertGrant(i), InsertCode(i)], t);
  }

  lemma DecidesYes(s: State, i: nat) returns (m: State)
    requires MayDecide(s, i)
    ensures Run(s, [View(i, true), Commit(i), Acknowledge(i)], m)
    ensures m == s.(threads := m.threads, requests := m.requests) && |m.threads| == |s.threads|
    ensures m.threads[i] == Granting(s.threads[i].request, s.threads[i].actor, s.threads[i].asked.value.(used := true))
  {
    var asked := s.threads[i].asked;
    var change := asked.(value := asked.value.(used := true));
    var c := s.threads[i];
    var one := Step(s, View(i, true));
    assert one.threads[i] == Asking(c.request, c.actor, c.decision, Decide, asked, change, false);
    var two := Step(one, Commit(i));
    assert two.threads[i] == Asking(c.request, c.actor, c.decision, Decide, asked, change, true);
    m := Step(two, Acknowledge(i));
    ThreeSteps(s, View(i, true), Commit(i), Acknowledge(i));
  }

  // ---- From a request to the decision ----

  /** A live, unused request of nobody or of this actor, with something the actor's permissions contain. */
  ghost predicate MayAsk(s: State, request: Hash, actor: string, permissions: seq<string>) {
    && request in s.requests && s.requests[request].expiresAt > s.now && !s.requests[request].value.used
    && (s.requests[request].subject == "" || s.requests[request].subject == actor)
    && exists x :: x in s.requests[request].value.scopes && x in permissions
  }

  lemma {:induction false} FilteredHas(scopes: seq<string>, permissions: seq<string>, x: string)
    requires x in scopes && x in permissions
    ensures x in Filtered(scopes, permissions)
    decreases |scopes|
  {
    if scopes[0] != x {
      assert scopes == [scopes[0]] + scopes[1..];
      FilteredHas(scopes[1..], permissions, x);
    }
  }

  /** The record a consent goes on with: bound to its actor and narrowed to what is permitted. */
  function Offer(r: Record<Pending>, actor: string, permissions: seq<string>): Record<Pending> {
    var scopes := Filtered(r.value.scopes, permissions);
    if r.subject == "" || |scopes| != |r.value.scopes|
    then Saved(r, r.(subject := actor, value := r.value.(scopes := scopes))) else r
  }

  /** Undisturbed, a consent comes to its decision with exactly the permitted scopes that were asked for. */
  lemma ConsentIsOffered(s: State, request: Hash, actor: string, decision: Option<bool>, permissions: seq<string>)
    returns (run: seq<Action>, t: State)
    requires MayAsk(s, request, actor, permissions)
    ensures Run(s, run, t) && |t.threads| == |s.threads| + 1
    ensures var asked := Offer(s.requests[request], actor, permissions);
            && t.threads[|s.threads|] == Consented(request, actor, decision, asked)
            && request in t.requests && t.requests[request] == asked && t.now == s.now && asked.expiresAt > t.now
            && asked.value.scopes == Filtered(s.requests[request].value.scopes, permissions)
  {
    var i := |s.threads|;
    var two := ConsentIsPermitted(s, request, actor, decision, permissions);
    run := [OpenConsent(request, actor, decision), Permit(i, Some(permissions))];
    t := two;
    if two.threads[i].Asking? {
      t := Narrows(two, i);
      RunJoins(s, run, two, [Commit(i), Acknowledge(i)], t);
      run := run + [Commit(i), Acknowledge(i)];
    }
  }

  lemma ConsentIsPermitted(s: State, request: Hash, actor: string, decision: Option<bool>, permissions: seq<string>)
    returns (t: State)
    requires MayAsk(s, request, actor, permissions)
    ensures Run(s, [OpenConsent(request, actor, decision), Permit(|s.threads|, Some(permissions))], t)
    ensures |t.threads| == |s.threads| + 1 && t.requests == s.requests && t.now == s.now
    ensures var r, asked := s.requests[request], Offer(s.requests[request], actor, permissions);
            && asked.value.scopes == Filtered(r.value.scopes, permissions)
            && t.threads[|s.threads|] ==
               if asked == r then Consented(request, actor, decision, r)
               else Asking(request, actor, decision, Narrow, r,
                           r.(subject := actor, value := r.value.(scopes := asked.value.scopes)), false)
  {
    var i, r := |s.threads|, s.requests[request];
    var x :| x in r.value.scopes && x in permissions;
    FilteredHas(r.value.scopes, permissions, x);
    FilteredKeepsAll(r.value.scopes, permissions);
    var one := Step(s, OpenConsent(request, actor, decision));
    assert one.threads[i] == Consenting(request, actor, decision, r);
    t := Step(one, Permit(i, Some(permissions)));
    assert t == With(one, i, Narrowed(one.threads[i], Some(permissions), one.now));
    TwoSteps(s, OpenConsent(request, actor, decision), Permit(i, Some(permissions)));
  }

  lemma Narrows(s: State, i: nat) returns (t: State)
    requires i < |s.threads| && s.threads[i].Asking? && s.threads[i].purpose.Narrow? && !s.threads[i].acknowledged
    requires s.threads[i].request in s.requests && s.requests[s.threads[i].request] == s.threads[i].asked
    requires s.threads[i].change.expiresAt > s.now
    ensures Run(s, [Commit(i), Acknowledge(i)], t) && |t.threads| == |s.threads| && t.now == s.now
    ensures var c := s.threads[i]; var asked := Saved(c.asked, c.change);
            && t.threads[i] == Consented(c.request, c.actor, c.decision, asked)
            && c.request in t.requests && t.requests[c.request] == asked
  {
    var c := s.threads[i];
    var one := Step(s, Commit(i));
    assert one.threads[i] == Asking(c.request, c.actor, c.decision, Narrow, c.asked, c.change, true);
    t := Step(one, Acknowledge(i));
    TwoSteps(s, Commit(i), Acknowledge(i));
  }

  // ---- From a code to tokens ----

  /** An unused code of this client, redirect and verifier, for a live grant within the permissions. */
  ghost predicate MayExchange(s: State, code: Token, client: string, redirect: string, verifier: string,
      permissions: seq<string>) {
    && Digest(code) in s.codes && s.codes[Digest(code)].expiresAt > s.now
    && var c := s.codes[Digest(code)].value;
       && !c.used && c.client == client && c.redirect == redirect && c.challenge == Proof(verifier)
             && VerifierOk(verifier)
       && c.grant in s.grants && s.grants[c.grant].expiresAt > s.now && !s.grants[c.grant].value.revoked
       && s.grants[c.grant].value.expiresAt == s.grants[c.grant].expiresAt
       && s.grants[c.grant].value.resource == s.resource
       && forall x | x in s.grants[c.grant].value.scopes :: x in permissions
  }

  /** The token is accepted now, and was handed out. */
  ghost predicate Accepted(s: State, i: nat, id: nat, permissions: seq<string>) {
    && i < |s.threads| && s.threads[i].Answered? && s.threads[i].access.grant == id && id in s.grants
    && Verify(s, s.threads[i].access, Some(permissions), s.now)
       == Some(Access(id, s.grants[id].value.subject, Filtered(s.grants[id].value.scopes, permissions),
                      s.grants[id].value.accessExpiresAt))
    && s.grants[id].value.accessExpiresAt == (if s.grants[id].value.expiresAt < s.now + 300_000
                                              then s.grants[id].value.expiresAt else s.now + 300_000)
  }

  function Exchange(i: nat, code: Token, client: string, redirect: string, verifier: string,
      permissions: seq<string>): seq<Action> {
    [PresentCode(code, client, redirect, verifier), ReadGrant(i), Permit(i, Some(permissions))]
    + [Commit(i), Acknowledge(i)] + [Commit(i), Acknowledge(i)]
  }

  /** Undisturbed, such a code is exchanged for tokens, and the access token is accepted. */
  lemma CodeGivesTokens(s: State, code: Token, client: string, redirect: string, verifier: string,
      permissions: seq<string>) returns (t: State)
    requires MayExchange(s, code, client, redirect, verifier, permissions)
    ensures Run(s, Exchange(|s.threads|, code, client, redirect, verifier, permissions), t)
    ensures Accepted(t, |s.threads|, s.codes[Digest(code)].value.grant, permissions)
  {
    var i := |s.threads|;
    var two := CodeIsTaken(s, code, client, redirect, verifier, permissions);
    var three := CodeIsSpent(two, i);
    t := TokensAreStored(three, i, permissions);
    RunJoins(s, [PresentCode(code, client, redirect, verifier), ReadGrant(i), Permit(i, Some(permissions))], two,
             [Commit(i), Acknowledge(i)], three);
    RunJoins(s, [PresentCode(code, client, redirect, verifier), ReadGrant(i), Permit(i, Some(permissions))]
                + [Commit(i), Acknowledge(i)], three, [Commit(i), Acknowledge(i)], t);
  }

  lemma CodeIsTaken(s: State, code: Token, client: string, redirect: string, verifier: string,
      permissions: seq<string>) returns (t: State)
    requires MayExchange(s, code, client, redirect, verifier, permissions)
    ensures var i := |s.threads|;
            Run(s, [PresentCode(code, client, redirect, verifier), ReadGrant(i), Permit(i, Some(permissions))], t)
    ensures var read := s.codes[Digest(code)];
            t == s.(threads := s.threads + [Spending(code, read, s.grants[read.value.grant], false)])
  {
    var i, read := |s.threads|, s.codes[Digest(code)];
    var base := s.grants[read.value.grant];
    var one := Step(s, PresentCode(code, client, redirect, verifier));
    assert one.threads[i] == Redeeming(code, read);
    var two := Step(one, ReadGrant(i));
    assert two.threads[i] == Exchanging(code, read, base);
    t := Step(two, Permit(i, Some(permissions)));
    assert t.threads[i] == Spending(code, read, base, false);
    ThreeSteps(s, PresentCode(code, client, redirect, verifier), ReadGrant(i), Permit(i, Some(permissions)));
  }

  lemma CodeIsSpent(s: State, i: nat) returns (t: State)
    requires i < |s.threads| && s.threads[i].Spending? && !s.threads[i].acknowledged
    requires var c := s.threads[i];
             && Digest(c.code) in s.codes && s.codes[Digest(c.code)] == c.read
             && c.read.expiresAt > s.now && c.base.expiresAt > s.now
    ensures Run(s, [Commit(i), Acknowledge(i)], t) && t.now == s.now && t.resource == s.resource && t.grants == s.grants
    ensures var c := s.threads[i];
            && |t.threads| == |s.threads| && t.threads[i].Minting? && !t.threads[i].acknowledged
            && t.threads[i].id == c.read.value.grant && t.threads[i].base == c.base
            && t.threads[i].access == Token(AccessSecret, c.read.value.grant, s.nonce)
            && t.threads[i].next == Tokens(c.base.value, c.read.value.grant, s.nonce, s.now)
  {
    var c := s.threads[i];
    var one := Step(s, Commit(i));
    assert one.threads[i] == Spending(c.code, c.read, c.base, true);
    t := Step(one, Acknowledge(i));
    TwoSteps(s, Commit(i), Acknowledge(i));
  }

  lemma TokensAreStored(s: State, i: nat, permissions: seq<string>) returns (t: State)
    requires i < |s.threads| && s.threads[i].Minting? && !s.threads[i].acknowledged
    requires var c := s.threads[i];
             && c.id in s.grants && s.grants[c.id] == c.base && c.base.expiresAt > s.now
             && c.next.expiresAt == c.base.expiresAt && c.next.resource == s.resource && !c.next.revoked
             && c.access == Token(AccessSecret, c.id, c.access.nonce) && c.next.accessHash == Digest(c.access)
             && c.next.accessExpiresAt == Min(c.next.expiresAt, s.now + ACCESS_MS)
    ensures Run(s, [Commit(i), Acknowledge(i)], t) && Accepted(t, i, s.threads[i].id, permissions)
    ensures t.grants[s.threads[i].id].value == s.threads[i].next && t.threads[i].refresh == s.threads[i].refresh
  {
    var c := s.threads[i];
    var one := Step(s, Commit(i));
    assert one.threads[i] == Minting(c.credential, c.id, c.base, c.next, c.access, c.refresh, true);
    t := Step(one, Acknowledge(i));
    TwoSteps(s, Commit(i), Acknowledge(i));
  }

  // ---- From a refresh token to new ones ----

  /** The current refresh token of a live grant of this client, with scopes within it and the permissions. */
  ghost predicate MayRefresh(s: State, refresh: Token, client: string, wanted: seq<string>, permissions: seq<string>) {
    && refresh.kind.RefreshSecret? && refresh.grant in s.grants && s.grants[refresh.grant].expiresAt > s.now
    && s.grants[refresh.grant].value.expiresAt == s.grants[refresh.grant].expiresAt
    && var g := s.grants[refresh.grant].value;
       && g.client == client && !g.revoked && g.refreshHash == Digest(refresh) && g.resource == s.resource
       && |g.usedRefresh| < 2048 && wanted != [] && (forall x | x in wanted :: x in g.scopes && x in permissions)
  }

  function Refresh(i: nat, refresh: Token, client: string, wanted: seq<string>, permissions: seq<string>): seq<Action> {
    [PresentRefresh(refresh, client, Some(wanted)), Permit(i, Some(permissions))] + [Commit(i), Acknowledge(i)]
  }

  /** Undisturbed, it is exchanged for new tokens with the scopes asked for, and both the old token is remembered as
      rotated and the new one is current. */
  lemma RefreshGivesTokens(s: State, refresh: Token, client: string, wanted: seq<string>, permissions: seq<string>)
    returns (t: State)
    requires MayRefresh(s, refresh, client, wanted, permissions)
    ensures Run(s, Refresh(|s.threads|, refresh, client, wanted, permissions), t)
    ensures Accepted(t, |s.threads|, refresh.grant, permissions)
    ensures var g := t.grants[refresh.grant].value;
            && g.scopes == wanted && Digest(refresh) in g.usedRefresh
            && g.refreshHash == Digest(t.threads[|s.threads|].refresh)
  {
    var i, g := |s.threads|, s.grants[refresh.grant].value;
    var one := Step(s, PresentRefresh(refresh, client, Some(wanted)));
    assert one.threads[i] == Refreshing(refresh, Some(wanted), s.grants[refresh.grant]);
    var two := Step(one, Permit(i, Some(permissions)));
    TwoSteps(s, PresentRefresh(refresh, client, Some(wanted)), Permit(i, Some(permissions)));
    t := TokensAreStored(two, i, permissions);
    RunJoins(s, [PresentRefresh(refresh, client, Some(wanted)), Permit(i, Some(permissions))], two,
             [Commit(i), Acknowledge(i)], t);
  }

  /** A token that was accepted goes on being accepted while its grant is not written and its time is not over. */
  lemma {:induction false} AcceptedUntilItEnds(s: State, i: nat, id: nat, permissions: seq<string>,
      actions: seq<Action>, t: State, later: int)
    requires Inv(s) && Accepted(s, i, id, permissions) && Run(s, actions, t)
    requires id in t.grants && t.grants[id] == s.grants[id]
    requires t.now < s.grants[id].value.accessExpiresAt && later < s.grants[id].value.accessExpiresAt
    ensures Verify(t, s.threads[i].access, Some(permissions), later)
              == Some(Access(id, s.grants[id].value.subject, Filtered(s.grants[id].value.scopes, permissions),
                             s.grants[id].value.accessExpiresAt))
  {
    RunIsLater(s, actions, t);
    assert GrantOk(s, id, s.grants[id]);
  }

  // ---- Times, and revocation ----

  /** A request that was just begun can be consented to by anybody with some of its permissions, for five minutes. */
  lemma RequestsLastFiveMinutes(s: State, client: string, redirect: string, challenge: Hash, scopes: seq<string>,
      ms: nat, actor: string, permissions: seq<string>)
    requires exists x :: x in scopes && x in permissions
    ensures var t := Step(Step(s, Begin(client, redirect, challenge, scopes)), Tick(ms));
            var request := Digest(Token(RequestSecret, 0, s.nonce));
            && (MayAsk(t, request, actor, permissions) <==> ms < 300_000)
            && (!MayAsk(t, request, actor, permissions) ==>
                  forall decision ::
                    Step(t, OpenConsent(request, actor, decision)).threads == t.threads + [Ended(Refused)])
            && request in t.requests
            && t.requests[request].value == Pending(client, redirect, challenge, scopes, false)
  {
  }

  /** Revoking a live grant is its subject's alone, and undisturbed it is done. */
  lemma OwnersRevoke(s: State, id: nat, actor: string)
    requires id in s.grants && s.grants[id].expiresAt > s.now
    ensures var i, one := |s.threads|, Step(s, RevokeGrant(id, actor));
            if s.grants[id].subject != actor then one == s.(threads := s.threads + [Ended(Refused)])
            else
              && Enabled(one, Commit(i))
              && var t := Step(one, Commit(i));
                 t.threads[i] == Ended(Quiet)
                 && t.grants == s.grants[id := s.grants[id].(revision := s.grants[id].revision + 1,
                                                             value := s.grants[id].value.(revoked := true))]
  {
    var one := Step(s, RevokeGrant(id, actor));
    if s.grants[id].subject == actor { assert one.threads[|s.threads|] == Revoking(id, s.grants[id], Succeed); }
  }

  /** The latest token of either kind, presented by its own client, revokes its live grant. */
  lemma HoldersRevoke(s: State, token: Token, client: string)
    requires token.kind.AccessSecret? || token.kind.RefreshSecret?
    requires token.grant in s.grants && s.grants[token.grant].expiresAt > s.now
    requires var g := s.grants[token.grant].value;
             && g.client == client && !g.revoked && g.expiresAt > s.now
             && Digest(token) == if token.kind.AccessSecret? then g.accessHash else g.refreshHash
    ensures var i, one := |s.threads|, Step(s, RevokeToken(token, client));
            && Enabled(one, Commit(i))
            && var t := Step(one, Commit(i));
               t.threads[i] == Ended(Quiet) && token.grant in t.grants && t.grants[token.grant].value.revoked
  {
    var one := Step(s, RevokeToken(token, client));
    assert one.threads[|s.threads|] == Revoking(token.grant, s.grants[token.grant], Check(client, token));
  }
}
