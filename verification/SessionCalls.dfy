/** The session service as it is written: one method for each stretch between two awaits. Each does one step of the
    model, keeps what holds in every reachable state, and says what its caller may rely on. */
module SessionCalls {
  import opened Basics
  import opened Sessions
  import opened SessionRuns

  /** A write asked for by a touch or a renewal: within the record read, and a renewal with a secret never stored. */
  ghost predicate Narrows(s: State, c: Call)
    requires c.Sending?
  {
    && c.change.next.expiresAt <= c.change.base.expiresAt && c.change.next.idleTimeoutMs <= c.change.base.idleTimeoutMs
    && c.change.next.renewAfterMs >= c.change.base.renewAfterMs
    && (c.change.kind.Renew? ==>
          && c.change.now >= c.change.base.renewedAt + c.change.next.renewAfterMs
          && forall id | id in s.records :: s.records[id].digest != c.renewed.secret)
    && (c.change.kind.Touch? ==> c.renewed == c.credential)
  }

  lemma PreparedNarrows(s: State, i: nat, subjectActive: bool)
    requires Inv(s) && i < |s.calls| && s.calls[i].Found?
    ensures var t := Prepared(s, i, subjectActive);
            t.calls[i].Sending? ==> Narrows(t, t.calls[i])
  {
    forall id | id in s.records ensures s.records[id].digest < s.nonce { assert RecordOk(s, id); }
  }

  lemma NextIdIsNew(s: State)
    requires Inv(s)
    ensures s.nonce !in s.records
  {
    assert s.nonce in s.records ==> RecordOk(s, s.nonce);
  }

  /** A write that succeeds replaces the very record it was computed from, and a renewal retires the credential used. */
  lemma CommitMeans(s: State, i: nat)
    requires Inv(s) && i < |s.calls| && s.calls[i].Sending?
    ensures var t := Committed(s, i);
            t.calls[i].Stored? ==>
              && t.calls[i].done.id in s.records && s.records[t.calls[i].done.id] == t.calls[i].done.base
              && (t.calls[i].done.kind.Renew? ==> Retired(t, t.calls[i].credential))
  {
    var c := s.calls[i];
    assert CallOk(s, c);
    if MayWrite(s.records[c.change.id], c.change, Max(c.change.now, s.now)) { WriteMoves(s, c); }
  }

  lemma AcknowledgeKeeps(s: State, i: nat)
    requires Inv(s) && i < |s.calls| && s.calls[i].Stored?
    ensures var t := With(s, i, Acknowledged(s.calls[i], s.now)); Inv(t) && Later(s, t)
  {
    QuietKeeps(s, Acknowledge(i));
  }

  lemma LeaveReadKeeps(s: State, credential: Credential)
    requires Inv(s)
    ensures Inv(RevokeRead(s, credential)) && Later(s, RevokeRead(s, credential))
  {
    QuietKeeps(s, Leave(credential));
  }

  /** No credential of the session is accepted any more, under any lifetimes, at any time. */
  ghost predicate RefusedForEver(s: State, id: nat) {
    id in s.records && forall secret, l, now :: !Accepts(s.records[id], secret, l, now)
  }

  /** The service over its store; each method is one stretch between two awaits. */
  class Service {
    const lifetime: Lifetime
    const store: SessionStore
    var now: nat
    var nonce: nat
    var calls: seq<Call>

    ghost function Now(): State
      reads this, store
    {
      State(now, nonce, store.records, calls)
    }

    constructor (lifetime: Lifetime, store: SessionStore, now: nat, nonce: nat)
      requires 0 < lifetime.renewAfter < lifetime.idle <= lifetime.absolute
      ensures LifetimeOk(lifetime)
      ensures this.lifetime == lifetime && this.store == store && Now() == State(now, nonce, store.records, [])
    {
      this.lifetime, this.store, this.now, this.nonce, calls := lifetime, store, now, nonce, [];
    }

    method Issue(subject: string) returns (credential: Credential, expiresAt: int)
      requires Inv(Now()) && LifetimeOk(lifetime)
      modifies this, store
      ensures Now() == IssuedState(old(Now()), subject, lifetime)
      ensures credential == Credential(old(nonce), old(nonce))
              && expiresAt == Expiry(store.records[credential.id], lifetime) == old(now) + lifetime.idle
      ensures Inv(Now()) && Later(old(Now()), Now())
      ensures credential.id !in old(store.records)
              && Accepts(store.records[credential.id], credential.secret, lifetime, now)
    {
      IssueKeeps(Now(), subject, lifetime);
      NextIdIsNew(Now());
      var id := nonce;
      nonce := nonce + 1;
      store.Create(id,
          Session(subject, id, 1, now, now + lifetime.absolute, lifetime.idle, lifetime.renewAfter, now, now, None));
      credential := Credential(id, id);
      expiresAt := now + lifetime.absolute;
      if now + lifetime.idle < expiresAt { expiresAt := now + lifetime.idle; }
    }

    method Lookup(kind: Kind, credential: Credential)
      requires Inv(Now()) && LifetimeOk(lifetime)
      modifies this`calls
      ensures Now() == LookedUp(old(Now()), kind, credential, lifetime)
      ensures Inv(Now()) && Later(old(Now()), Now())
      ensures calls[|old(calls)|].Found? <==>
                && credential.id in store.records && store.records[credential.id].digest == credential.secret
                && store.records[credential.id].revokedAt.None? && now < Expiry(store.records[credential.id], lifetime)
    {
      LookKeeps(Now(), kind, credential, lifetime);
      if credential.id in store.records { assert RecordOk(Now(), credential.id); }
      var id := credential.id;
      if id !in store.records {
        calls := calls + [Unauthorized];
        return;
      }
      var record := store.records[id];
      if !RecordValid(record, now) || record.digest != credential.secret || record.revokedAt.Some? {
        calls := calls + [Unauthorized];
        return;
      }
      var idle := record.lastActiveAt + Min(record.idleTimeoutMs, lifetime.idle);
      var expiry := record.issuedAt + lifetime.absolute;
      if record.expiresAt < expiry { expiry := record.expiresAt; }
      if idle < expiry { expiry := idle; }
      if now >= expiry {
        calls := calls + [Unauthorized];
      } else {
        calls := calls + [Found(kind, credential, lifetime, record, expiry)];
      }
    }

    method Prepare(i: nat, subjectActive: bool)
      requires Inv(Now()) && i < |calls| && calls[i].Found?
      modifies this`calls, this`nonce
      ensures Now() == Prepared(old(Now()), i, subjectActive)
      ensures Inv(Now()) && Later(old(Now()), Now())
      ensures calls[i].Sending? ==> Narrows(Now(), calls[i])
    {
      PrepareKeeps(Now(), i, subjectActive);
      ghost var was := Now();
      PreparedNarrows(was, i, subjectActive);
      var c := calls[i];
      if !subjectActive || now >= c.expiry {
        calls := calls[i := Unauthorized];
        return;
      }
      if c.kind.Renew? && now < c.base.renewedAt + Max(c.base.renewAfterMs, c.lifetime.renewAfter) {
        calls := calls[i := NotDue];
        return;
      }
      var secret := c.credential.secret;
      if c.kind.Renew? { secret := nonce; }
      nonce := nonce + 1;
      var next := c.base.(digest := secret, revision := c.base.revision + 1,
                          expiresAt := Min(c.base.expiresAt, c.base.issuedAt + c.lifetime.absolute),
                          idleTimeoutMs := Min(c.base.idleTimeoutMs, c.lifetime.idle),
                          renewAfterMs := Max(c.base.renewAfterMs, c.lifetime.renewAfter), lastActiveAt := now);
      if c.kind.Renew? { next := next.(renewedAt := now); }
      calls := calls[i := Sending(c.credential, Credential(c.credential.id, secret), c.lifetime,
                                  Mutation(c.kind, c.credential.id, c.base, now, next))];
    }

    method Commit(i: nat)
      requires Inv(Now()) && i < |calls| && calls[i].Sending?
      modifies this`calls, store
      ensures Now() == Committed(old(Now()), i)
      ensures Inv(Now()) && Later(old(Now()), Now())
      ensures calls[i].Stored? ==> old(store.records)[calls[i].done.id] == calls[i].done.base
      ensures calls[i].Stored? && calls[i].done.kind.Renew? ==> Retired(Now(), calls[i].credential)
    {
      CommitKeeps(Now(), i);
      CommitMeans(Now(), i);
      var c := calls[i];
      var changed := store.Mutate(c.change, now);
      if changed {
        calls := calls[i := Stored(c.credential, c.renewed, c.change)];
      } else {
        calls := calls[i := Unauthorized];
      }
    }

    method Acknowledge(i: nat)
      requires Inv(Now()) && i < |calls| && calls[i].Stored?
      modifies this`calls
      ensures Now() == With(old(Now()), i, Acknowledged(old(calls[i]), now))
      ensures Inv(Now()) && Later(old(Now()), Now())
      ensures calls[i].Returned? ==> now < calls[i].expiresAt && (calls[i].rotated ==> Retired(Now(), calls[i].was))
    {
      AcknowledgeKeeps(Now(), i);
      assert CallOk(Now(), calls[i]);
      var c := calls[i];
      var until := c.done.now + c.done.next.idleTimeoutMs;
      if c.done.next.expiresAt <= until { until := c.done.next.expiresAt; }
      if now >= until {
        calls := calls[i := Unauthorized];
      } else {
        calls := calls[i := Returned(c.credential, c.renewed, until, c.done.kind.Renew?)];
      }
    }

    method RevokeLookup(credential: Credential)
      requires Inv(Now())
      modifies this`calls
      ensures Now() == RevokeRead(old(Now()), credential)
      ensures Inv(Now()) && Later(old(Now()), Now())
    {
      LeaveReadKeeps(Now(), credential);
      var id := credential.id;
      if id !in store.records || !RecordValid(store.records[id], now) || store.records[id].digest != credential.secret
         || store.records[id].revokedAt.Some? {
        calls := calls + [Unauthorized];
      } else {
        calls := calls + [Leaving(id, now)];
      }
    }

    method CommitRevoke(i: nat)
      requires Inv(Now()) && i < |calls| && calls[i].Leaving?
      modifies this`calls, store
      ensures Now() == RevokeCommitted(old(Now()), i)
      ensures Inv(Now()) && Later(old(Now()), Now())
      ensures calls[i].Left? ==> RefusedForEver(Now(), old(calls[i]).id)
    {
      LeaveKeeps(Now(), i);
      assert CallOk(Now(), calls[i]);
      var c := calls[i];
      var changed := store.Revoke(c.id, c.at);
      if changed { calls := calls[i := Left]; } else { calls := calls[i := Unauthorized]; }
    }
  }
}
