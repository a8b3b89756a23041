/** When calls are refused: for every stretch of a call that may end it, exactly when it does, told in the fields of
    records and arguments. */
module OAuthRefusals {
  import opened Basics
  import opened OAuthServer
  import opened OAuthRuns
  import OAuthService

  /** A consent is refused when the actor is unknown, when it may have nothing that was asked for, or when the
      request, which has to be bound to the actor or narrowed, is over. */
  lemma ConsentIsRefused(s: State, i: nat, permissions: Option<seq<string>>)
    requires Enabled(s, Permit(i, permissions)) && s.threads[i].Consenting?
    ensures var c, scopes := s.threads[i].asked, s.threads[i].asked.value.scopes;
            Step(s, Permit(i, permissions)).threads[i] == Ended(Refused) <==>
              || permissions.None?
              || (forall x | x in scopes :: x !in permissions.value)
              || (c.expiresAt <= s.now && (c.subject == "" || exists x :: x in scopes && x !in permissions.value))
  {
    var scopes := s.threads[i].asked.value.scopes;
    if permissions.Some? {
      FilteredKeepsAll(scopes, permissions.value);
      FilteredIsWithin(scopes, permissions.value);
      if x :| x in scopes && x in permissions.value { OAuthService.FilteredHas(scopes, permissions.value, x); }
      KeepsAllOrLess(scopes, permissions.value);
    }
  }

  /** A filter that keeps the length has left nothing out. */
  lemma {:induction false} KeepsAllOrLess(scopes: seq<string>, permissions: seq<string>)
    ensures |Filtered(scopes, permissions)| == |scopes| <==> forall x | x in scopes :: x in permissions
    ensures |Filtered(scopes, permissions)| <= |scopes|
    ensures Filtered(scopes, permissions) != [] ==> exists x :: x in scopes && x in permissions
    decreases |scopes|
  {
    if scopes != [] {
      KeepsAllOrLess(scopes[1..], permissions);
      assert forall x :: x in scopes <==> x == scopes[0] || x in scopes[1..];
    }
  }

  /** Before the decision is written the client must still be there and, unless it was only looked at, the request. */
  lemma ViewIsRefused(s: State, i: nat, clientOk: bool)
    requires Enabled(s, View(i, clientOk))
    ensures var c, after := s.threads[i], Step(s, View(i, clientOk)).threads[i];
            && (after == Ended(Refused) <==> !clientOk || (c.decision.Some? && c.asked.expiresAt <= s.now))
            && (after == Ended(Viewed) <==> clientOk && c.decision.None?)
            && (after.Asking? <==> clientOk && c.decision.Some? && s.now < c.asked.expiresAt)
  {
  }

  /** The record this write is for is gone, or has been written since the call read it. */
  predicate Overtaken(s: State, t: Thread)
    requires t.Asking? || t.Spending? || t.Minting?
  {
    match t
    case Asking(request, _, _, _, asked, _, _) => request !in s.requests
        || s.requests[request].revision != asked.revision
    case Spending(code, read, _, _) => Digest(code) !in s.codes || s.codes[Digest(code)].revision != read.revision
    case Minting(_, id, base, _, _, _, _) => id !in s.grants || s.grants[id].revision != base.revision
  }

  /** A write is lost exactly when it was overtaken, and then it changes nothing but its own call. */
  lemma WritesAreLost(s: State, i: nat)
    requires Enabled(s, Commit(i)) && !s.threads[i].Revoking?
    ensures var t := Step(s, Commit(i));
            && (t.threads[i] == Ended(Refused) <==> Overtaken(s, s.threads[i]))
            && (t.threads[i] == Ended(Refused) ==> t == With(s, i, Ended(Refused)))
  {
    hide AskCommitted, CodeCommitted, MintCommitted, With;
    match s.threads[i]
    case Asking(_, _, _, _, _, _, _) => LostDecision(s, i);
    case Spending(_, _, _, _) => LostCode(s, i);
    case Minting(_, _, _, _, _, _, _) => LostTokens(s, i);
  }

  lemma LostDecision(s: State, i: nat)
    requires i < |s.threads| && s.threads[i].Asking? && !s.threads[i].acknowledged
    ensures var t := AskCommitted(s, i);
            && (t.threads[i] == Ended(Refused) <==> Overtaken(s, s.threads[i]))
            && (t.threads[i] == Ended(Refused) ==> t == With(s, i, Ended(Refused)))
  {
  }

  lemma LostCode(s: State, i: nat)
    requires i < |s.threads| && s.threads[i].Spending? && !s.threads[i].acknowledged
    ensures var t := CodeCommitted(s, i);
            && (t.threads[i] == Ended(Refused) <==> Overtaken(s, s.threads[i]))
            && (t.threads[i] == Ended(Refused) ==> t == With(s, i, Ended(Refused)))
  {
  }

  lemma LostTokens(s: State, i: nat)
    requires i < |s.threads| && s.threads[i].Minting? && !s.threads[i].acknowledged
    ensures var t := MintCommitted(s, i);
            && (t.threads[i] == Ended(Refused) <==> Overtaken(s, s.threads[i]))
            && (t.threads[i] == Ended(Refused) ==> t == With(s, i, Ended(Refused)))
  {
  }

  /** An answer that comes when its record is over, or the new access token already is, is refused. */
  lemma LateAnswersAreRefused(s: State, i: nat)
    requires Enabled(s, Acknowledge(i))
    ensures var c, after := s.threads[i], Step(s, Acknowledge(i)).threads[i];
            after == Ended(Refused) <==>
              || (c.Asking? && c.change.expiresAt <= s.now)
              || (c.Spending? && (c.read.expiresAt <= s.now || c.base.expiresAt <= s.now))
              || (c.Minting? && (c.base.expiresAt <= s.now || c.next.accessExpiresAt <= s.now))
  {
    if s.threads[i].Spending? { assert Step(s, Acknowledge(i)) == CodeDone(s, i); }
  }

  const LOWER := "abcdefghijklmnopqrstuvwxyz"
  const UPPER := "ABCDEFGHIJKLMNOPQRSTUVWXYZ"
  const SIGNS := "0123456789-._~"

  /** The characters a verifier is made of. */
  const UNRESERVED := LOWER + UPPER + SIGNS

  lemma LowerMeans(c: char)
    ensures 'a' <= c <= 'z' <==> c in LOWER
  {
    if 'a' <= c <= 'z' { assert LOWER[c as int - 97] == c; }
    if i :| 0 <= i < 26 && LOWER[i] == c { assert c as int == 97 + i; }
  }

  lemma UpperMeans(c: char)
    ensures 'A' <= c <= 'Z' <==> c in UPPER
  {
    if 'A' <= c <= 'Z' { assert UPPER[c as int - 65] == c; }
    if i :| 0 <= i < 26 && UPPER[i] == c { assert c as int == 65 + i; }
  }

  lemma SignsMean(c: char)
    ensures '0' <= c <= '9' || c == '-' || c == '.' || c == '_' || c == '~' <==> c in SIGNS
  {
    if '0' <= c <= '9' { assert SIGNS[c as int - 48] == c; }
  }

  lemma CharactersMean(c: char)
    ensures VerifierChar(c) <==> c in UNRESERVED
  {
    LowerMeans(c);
    UpperMeans(c);
    SignsMean(c);
  }

  lemma VerifiersMean(v: string)
    ensures VerifierOk(v) <==> 43 <= |v| && |v| < 129 && forall c | c in v :: c in UNRESERVED
  {
    forall c | c in v ensures VerifierChar(c) <==> c in UNRESERVED { CharactersMean(c); }
    hide VerifierChar;
    forall i | 0 <= i < |v| ensures v[i] in v {}
  }

  /** A code is redeemed exactly while it is unused and live, by its own client, to its own redirect, with the
      verifier of its challenge. */
  lemma RedemptionIsRefused(s: State, code: Token, client: string, redirect: string, verifier: string)
    ensures var t, h := Step(s, PresentCode(code, client, redirect, verifier)), Digest(code);
            && |t.threads| == |s.threads| + 1
            && t.threads[|s.threads|]
                 == if h in s.codes && s.now < s.codes[h].expiresAt && !s.codes[h].value.used
                       && s.codes[h].value.client == client && s.codes[h].value.redirect == redirect
                       && s.codes[h].value.challenge == Proof(verifier)
                       && 43 <= |verifier| <= 128 && (forall c | c in verifier :: c in UNRESERVED)
                    then Redeeming(code, s.codes[h]) else Ended(Refused)
  {
    VerifiersMean(verifier);
  }

  /** It goes on while its grant is live and unrevoked, its scopes are all still permitted and the code is not over. */
  lemma ExchangeIsRefused(s: State, i: nat, permissions: Option<seq<string>>)
    requires i < |s.threads|
    ensures s.threads[i].Redeeming? ==>
              var c, id := s.threads[i], s.threads[i].read.value.grant;
              Step(s, ReadGrant(i)).threads[i]
                == if id in s.grants && s.now < s.grants[id].expiresAt && !s.grants[id].value.revoked
                   then Exchanging(c.code, c.read, s.grants[id]) else Ended(Refused)
    ensures s.threads[i].Exchanging? ==>
              var c := s.threads[i];
              Step(s, Permit(i, permissions)).threads[i]
                == if permissions.Some? && (forall x | x in c.base.value.scopes :: x in permissions.value)
                      && s.now < c.read.expiresAt
                   then Spending(c.code, c.read, c.base, false) else Ended(Refused)
  {
  }

  /** The token is the latest of its kind of a live, unrevoked grant of this client. */
  predicate InUse(s: State, token: Token, client: string) {
    && token.grant in s.grants && s.now < s.grants[token.grant].expiresAt
    && var g := s.grants[token.grant].value;
       && s.now < g.expiresAt && g.client == client && !g.revoked
       && Digest(token) == if token.kind.AccessSecret? then g.accessHash else g.refreshHash
  }

  /** Revoking a token writes its grant exactly if the token is in use, and is silent otherwise; after a lost write it
      looks once more. */
  lemma RevocationStarts(s: State, token: Token, client: string)
    ensures var t := Step(s, RevokeToken(token, client));
            && |t.threads| == |s.threads| + 1
            && t.threads[|s.threads|]
                 == if (token.kind.AccessSecret? || token.kind.RefreshSecret?) && InUse(s, token, client)
                    then Revoking(token.grant, s.grants[token.grant], Check(client, token)) else Ended(Quiet)
  {
  }

  lemma RevocationLooksAgain(s: State, i: nat)
    requires Enabled(s, ReadAgain(i))
    ensures Step(s, ReadAgain(i)).threads[i]
              == Ended(if InUse(s, s.threads[i].token, s.threads[i].client) then Unavailable else Quiet)
  {
  }

  /** A revocation is written exactly if nobody has written the grant since it was read. A replay is refused in any
      case, a subject is told which it was, and a client whose write was lost looks again. */
  lemma RevocationEnds(s: State, i: nat)
    requires Enabled(s, Commit(i)) && s.threads[i].Revoking?
    ensures var c, t := s.threads[i], Step(s, Commit(i));
            var won := c.id in s.grants && s.grants[c.id].revision == c.base.revision;
            && (won ==> c.id in t.grants && t.grants[c.id].value == c.base.value.(revoked := true)
                        && t.grants == s.grants[c.id := t.grants[c.id]])
            && (!won ==> t.grants == s.grants)
            && t.threads[i] == match c.later
                               case Fail => Ended(Refused)
                               case Succeed => Ended(if won then Quiet else Refused)
                               case Check(client, token) => if won then Ended(Quiet) else Rereading(c.id, client, token)
  {
  }

  /** A refresh is refused at once unless its token is of a live, unrevoked grant of its client, and the current one
      or a rotated one. */
  lemma RefreshIsRefused(s: State, refresh: Token, client: string, wanted: Option<seq<string>>)
    ensures var t := Step(s, PresentRefresh(refresh, client, wanted));
            && |t.threads| == |s.threads| + 1
            && (t.threads[|s.threads|] == Ended(Refused) <==>
                  !(&& refresh.kind.RefreshSecret? && refresh.grant in s.grants
                      && s.now < s.grants[refresh.grant].expiresAt
                    && var g := s.grants[refresh.grant].value;
                       && g.client == client && !g.revoked
                       && (g.refreshHash == Digest(refresh) || Digest(refresh) in g.usedRefresh)))
  {
  }

  /** A rotation is refused when scopes are asked for that the grant or the permissions lack, or none at all, or when
      the grant is over; at its limit of rotations the grant is revoked instead. */
  lemma RotationIsRefused(s: State, i: nat, permissions: Option<seq<string>>)
    requires Enabled(s, Permit(i, permissions)) && s.threads[i].Refreshing?
    ensures var c, after := s.threads[i], Step(s, Permit(i, permissions)).threads[i];
            var g, wanted := c.base.value, if c.wanted.Some? then c.wanted.value else c.base.value.scopes;
            var allowed := permissions.Some? && wanted != []
                           && forall x | x in wanted :: x in g.scopes && x in permissions.value;
            && (after == Ended(Refused) <==> !allowed || (|g.usedRefresh| < 2048 && c.base.expiresAt <= s.now))
            && (after.Revoking? <==> allowed && 2048 <= |g.usedRefresh|)
            && (after.Minting? ==> after.next.scopes == wanted)
  {
    assert Step(s, Permit(i, permissions)) == RefreshPermitted(s, i, permissions);
  }

  /** An access token is accepted exactly while it is the latest of a live, unrevoked grant for this resource, both
      when it is presented and when the permissions arrive; it carries those scopes of the grant that are
      permitted. */
  lemma VerifyMeans(s: State, token: Token, permissions: Option<seq<string>>, later: int)
    ensures var access := Verify(s, token, permissions, later);
            && (access.Some? <==>
                  && token.kind.AccessSecret? && token.grant in s.grants && permissions.Some?
                  && s.now < s.grants[token.grant].expiresAt
                  && var g := s.grants[token.grant].value;
                     && !g.revoked && g.resource == s.resource && g.accessHash == Digest(token)
                     && s.now < g.expiresAt && later < g.expiresAt && s.now < g.accessExpiresAt
                           && later < g.accessExpiresAt)
            && (access.Some? ==>
                  && access.value.subject == s.grants[token.grant].value.subject && access.value.id == token.grant
                  && access.value.expiresAt == s.grants[token.grant].value.accessExpiresAt
                  && forall x :: x in access.value.scopes <==>
                       x in s.grants[token.grant].value.scopes && x in permissions.value)
  {
    if Verify(s, token, permissions, later).Some? {
      var scopes := s.grants[token.grant].value.scopes;
      FilteredIsWithin(scopes, permissions.value);
      forall x | x in scopes && x in permissions.value ensures x in Filtered(scopes, permissions.value) {
        OAuthService.FilteredHas(scopes, permissions.value, x);
      }
    }
  }

  /** Pruning takes what it has chosen if it is over by then, and nothing else, and changes nothing it leaves. */
  lemma PruningTakesWhatIsOver(s: State, before: int, requests: set<Hash>, codes: set<Hash>, grants: set<nat>)
    requires Enabled(s, Prune(before, requests, codes, grants))
    ensures var t := Step(s, Prune(before, requests, codes, grants));
            && (forall k | k in s.requests :: k !in t.requests <==> k in requests && s.requests[k].expiresAt <= before)
            && (forall k | k in s.codes :: k !in t.codes <==> k in codes && s.codes[k].expiresAt <= before)
            && (forall id | id in s.grants :: id !in t.grants <==> id in grants && s.grants[id].expiresAt <= before)
            && (forall k | k in t.requests :: k in s.requests && t.requests[k] == s.requests[k])
            && (forall k | k in t.codes :: k in s.codes && t.codes[k] == s.codes[k])
            && (forall id | id in t.grants :: id in s.grants && t.grants[id] == s.grants[id])
            && t == s.(requests := t.requests, codes := t.codes, grants := t.grants)
  {
  }
}
