/** When sessions are accepted, touched, renewed and revoked: the exact conditions, told in the fields of the stored
    record, and what an undisturbed call gives. */
module SessionService {
  import opened Basics
  import opened Sessions
  import opened SessionRuns

  /** The record is this credential's, not revoked, and within its own limits and those of the caller. */
  predicate Open(r: Session, secret: nat, l: Lifetime, now: int) {
    && r.digest == secret && r.revokedAt == None
    && now < r.expiresAt && now < r.issuedAt + l.absolute
    && now < r.lastActiveAt + r.idleTimeoutMs && now < r.lastActiveAt + l.idle
  }

  /** The first of the four times at which such a session ends. */
  function Limit(r: Session, l: Lifetime): (limit: int)
    ensures limit in {r.expiresAt, r.issuedAt + l.absolute, r.lastActiveAt + r.idleTimeoutMs, r.lastActiveAt + l.idle}
    ensures limit <= r.expiresAt && limit <= r.issuedAt + l.absolute
    ensures limit <= r.lastActiveAt + r.idleTimeoutMs && limit <= r.lastActiveAt + l.idle
  {
    var total := if r.expiresAt < r.issuedAt + l.absolute then r.expiresAt else r.issuedAt + l.absolute;
    var idle := r.lastActiveAt + if r.idleTimeoutMs < l.idle then r.idleTimeoutMs else l.idle;
    if total < idle then total else idle
  }

  /** In every reachable state a lookup goes on exactly with a session that is open in this sense. */
  lemma {:induction false} AcceptsExactly(s: State, actions: seq<Action>, t: State, kind: Kind, credential: Credential,
      l: Lifetime)
    requires Initial(s) && Run(s, actions, t) && LifetimeOk(l)
    ensures var u := Step(t, Look(kind, credential, l));
            && |u.calls| == |t.calls| + 1 && u.records == t.records
            && (u.calls[|t.calls|].Found? <==>
                  credential.id in t.records && Open(t.records[credential.id], credential.secret, l, t.now))
            && (!u.calls[|t.calls|].Found? ==> u.calls[|t.calls|] == Unauthorized)
            && (u.calls[|t.calls|].Found? ==> u.calls[|t.calls|].expiry == Limit(t.records[credential.id], l))
  {
    RunKeeps(s, actions, t);
    if credential.id in t.records { assert RecordOk(t, credential.id); }
  }

  /** A write succeeds exactly if nobody has written or revoked the record since it was read, and it is still within its
      old limits and the narrowed ones. */
  lemma CommitsExactly(s: State, i: nat)
    requires Inv(s) && Enabled(s, Commit(i))
    ensures var m, t := s.calls[i].change, Step(s, Commit(i));
            && m.id in s.records
            && (t.calls[i].Stored? <==>
                  && s.records[m.id] == m.base && s.now < m.base.expiresAt && s.now < m.next.expiresAt
                  && s.now < m.base.lastActiveAt + m.base.idleTimeoutMs
                  && s.now < m.base.lastActiveAt + m.next.idleTimeoutMs)
            && (!t.calls[i].Stored? ==> t == s.(calls := s.calls[i := Unauthorized]))
  {
    assert CallOk(s, s.calls[i]);
  }

  function Steps(i: nat, kind: Kind, credential: Credential, l: Lifetime): seq<Action> {
    [Look(kind, credential, l), Prepare(i, true), Commit(i), Acknowledge(i)]
  }

  lemma {:induction false} FourSteps(s: State, run: seq<Action>)
    requires |run| == 4 && Enabled(s, run[0])
    requires var one := Step(s, run[0]); Enabled(one, run[1])
    requires var two := Step(Step(s, run[0]), run[1]); Enabled(two, run[2])
    requires var three := Step(Step(Step(s, run[0]), run[1]), run[2]); Enabled(three, run[3])
    ensures Run(s, run, Step(Step(Step(Step(s, run[0]), run[1]), run[2]), run[3]))
  {
    hide Step, Enabled;
    var one := Step(s, run[0]);
    var two := Step(one, run[1]);
    var three := Step(two, run[2]);
    var four := Step(three, run[3]);
    assert run[3..][1..] == [] && run[2..][1..] == run[3..] && run[1..][1..] == run[2..];
    assert Run(three, run[3..], four);
    assert Run(two, run[2..], four);
    assert Run(one, run[1..], four);
  }

  /** What a touch or renewal leaves of a record. */
  function After(kind: Kind, r: Session, secret: nat, l: Lifetime, now: int): Session {
    Session(r.subject, secret, r.revision + 1, r.issuedAt,
            if r.issuedAt + l.absolute < r.expiresAt then r.issuedAt + l.absolute else r.expiresAt,
            if l.idle < r.idleTimeoutMs then l.idle else r.idleTimeoutMs,
            if l.renewAfter > r.renewAfterMs then l.renewAfter else r.renewAfterMs,
            now, if kind.Renew? then now else r.renewedAt, r.revokedAt)
  }

  /** Undisturbed, an open session is touched: its activity is now, its limits are narrowed to the caller's, and its
      credential is accepted on. */
  lemma TouchWorks(s: State, credential: Credential, l: Lifetime) returns (t: State)
    requires Inv(s) && LifetimeOk(l) && credential.id in s.records
    requires Open(s.records[credential.id], credential.secret, l, s.now)
    ensures Run(s, Steps(|s.calls|, Touch, credential, l), t) && |t.calls| == |s.calls| + 1
    ensures credential.id in t.records
    ensures t.records[credential.id] == After(Touch, s.records[credential.id], credential.secret, l, s.now)
    ensures Open(t.records[credential.id], credential.secret, l, t.now)
    ensures var r := t.records[credential.id];
            t.calls[|s.calls|]
              == Returned(credential, credential, Min(r.expiresAt, r.lastActiveAt + r.idleTimeoutMs), false)
  {
    var run, r := Steps(|s.calls|, Touch, credential, l), s.records[credential.id];
    assert RecordOk(s, credential.id);
    var one := Step(s, run[0]);
    assert one.calls[|s.calls|] == Found(Touch, credential, l, r, Expiry(r, l));
    var two := Step(one, run[1]);
    assert two.calls[|s.calls|].Sending?;
    var three := Step(two, run[2]);
    assert three.calls[|s.calls|].Stored?;
    t := Step(three, run[3]);
    FourSteps(s, run);
  }

  /** Undisturbed, an open session whose last renewal is far enough back is renewed: its new credential is accepted
      and the old one is not, under any lifetimes. */
  lemma RenewWorks(s: State, credential: Credential, l: Lifetime) returns (t: State)
    requires Inv(s) && LifetimeOk(l) && credential.id in s.records
    requires Open(s.records[credential.id], credential.secret, l, s.now)
    requires s.now >= s.records[credential.id].renewedAt + s.records[credential.id].renewAfterMs
    requires s.now >= s.records[credential.id].renewedAt + l.renewAfter
    ensures Run(s, Steps(|s.calls|, Renew, credential, l), t) && |t.calls| == |s.calls| + 1
    ensures credential.id in t.records
    ensures t.records[credential.id] == After(Renew, s.records[credential.id], s.nonce, l, s.now)
    ensures Open(t.records[credential.id], s.nonce, l, t.now)
    ensures forall k, later :: !Accepts(t.records[credential.id], credential.secret, k, later)
    ensures var r := t.records[credential.id];
            t.calls[|s.calls|] == Returned(credential, Credential(credential.id, s.nonce),
                                           Min(r.expiresAt, r.lastActiveAt + r.idleTimeoutMs), true)
  {
    var run, r := Steps(|s.calls|, Renew, credential, l), s.records[credential.id];
    assert RecordOk(s, credential.id);
    var one := Step(s, run[0]);
    assert one.calls[|s.calls|] == Found(Renew, credential, l, r, Expiry(r, l));
    var two := Step(one, run[1]);
    assert two.calls[|s.calls|].Sending?;
    var three := Step(two, run[2]);
    assert three.calls[|s.calls|].Stored?;
    t := Step(three, run[3]);
    FourSteps(s, run);
  }

  /** Too early, a renewal is turned away and nothing is written. */
  lemma EarlyRenewalWaits(s: State, credential: Credential, l: Lifetime)
    requires Inv(s) && LifetimeOk(l) && credential.id in s.records
    requires Open(s.records[credential.id], credential.secret, l, s.now)
    requires var r := s.records[credential.id];
             s.now < r.renewedAt + r.renewAfterMs || s.now < r.renewedAt + l.renewAfter
    ensures var one := Step(s, Look(Renew, credential, l));
            && Enabled(one, Prepare(|s.calls|, true))
            && Step(one, Prepare(|s.calls|, true)) == s.(calls := s.calls + [NotDue])
  {
    assert RecordOk(s, credential.id);
  }

  /** A session of an inactive subject is refused, and nothing is written. */
  lemma InactiveSubjectIsRefused(s: State, i: nat)
    requires Enabled(s, Prepare(i, false))
    ensures Step(s, Prepare(i, false)) == s.(calls := s.calls[i := Unauthorized])
  {
  }

  /** A call that is past its session's expiry once its subject is known is refused, and nothing is written. */
  lemma LateCallIsRefused(s: State, i: nat, subjectActive: bool)
    requires Enabled(s, Prepare(i, subjectActive)) && s.calls[i].expiry <= s.now
    ensures Step(s, Prepare(i, subjectActive)) == s.(calls := s.calls[i := Unauthorized])
  {
  }

  /** A write that is confirmed too late is not reported as a success. */
  lemma LateAnswerIsRefused(s: State, i: nat)
    requires Enabled(s, Acknowledge(i))
    ensures var m := s.calls[i].done;
            Step(s, Acknowledge(i)).calls[i] == Unauthorized <==>
              m.next.expiresAt <= s.now || m.now + m.next.idleTimeoutMs <= s.now
  {
  }

  /** Of two sign-outs under way the second finds the session revoked, and changes nothing. */
  lemma SecondSignOutFails(s: State, i: nat)
    requires Enabled(s, CommitLeave(i)) && s.calls[i].id in s.records && s.records[s.calls[i].id].revokedAt.Some?
    ensures Step(s, CommitLeave(i)) == s.(calls := s.calls[i := Unauthorized])
  {
  }

  /** A sign-out with the session's credential is let in while it is not revoked, though it be past its limits, and
      undisturbed it revokes it as of now. */
  lemma SignOutWorks(s: State, credential: Credential)
    requires Inv(s) && credential.id in s.records
    ensures var r, one := s.records[credential.id], Step(s, Leave(credential));
            if r.digest == credential.secret && r.revokedAt == None then
              && Enabled(one, CommitLeave(|s.calls|))
              && Step(one, CommitLeave(|s.calls|))
                   == s.(calls := s.calls + [Left], records := s.records[credential.id := r.(revokedAt := Some(s.now))])
            else one == s.(calls := s.calls + [Unauthorized])
  {
    assert RecordOk(s, credential.id);
  }

  /** An administrator revokes exactly the revision it has seen, at a time not before the issue or the store's clock. */
  lemma AdministratorRevokes(s: State, id: nat, expected: nat, at: nat)
    requires id in s.records
    ensures var r, t := s.records[id], Step(s, AdminRevoke(id, expected, at));
            if r.revision == expected && r.revokedAt == None then
              && t.records.Keys == s.records.Keys && t.records[id].revokedAt.Some?
              && t.records[id].revokedAt.value >= at && t.records[id].revokedAt.value >= s.now
              && t.records[id].revokedAt.value >= r.issuedAt && t.records[id].revokedAt.value in {at, s.now, r.issuedAt}
              && t.records[id].revision == expected + 1
              && t == s.(records := s.records[id := r.(revokedAt := t.records[id].revokedAt, revision := expected + 1)])
            else t == s
  {
  }
}
