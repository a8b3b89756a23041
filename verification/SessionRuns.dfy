/** Every run of the session service, with concurrent calls, revocations and lifetimes that differ from call to call. */
module SessionRuns {
  import opened Basics
  import opened Sessions

  datatype Action =
    | Tick(ms: nat)
    | Issue(subject: string, lifetime: Lifetime)
    | Look(kind: Kind, credential: Credential, lifetime: Lifetime)
    | Prepare(call: nat, subjectActive: bool)
    | Commit(call: nat)
    | Acknowledge(call: nat)
    | Leave(credential: Credential)
    | CommitLeave(call: nat)
    | AdminRevoke(id: nat, expected: nat, at: nat)

  predicate Enabled(s: State, a: Action) {
    match a
    case Issue(_, l) => LifetimeOk(l)
    case Look(_, _, l) => LifetimeOk(l)
    case Prepare(i, _) => i < |s.calls| && s.calls[i].Found?
    case Commit(i) => i < |s.calls| && s.calls[i].Sending?
    case Acknowledge(i) => i < |s.calls| && s.calls[i].Stored?
    case CommitLeave(i) => i < |s.calls| && s.calls[i].Leaving?
    case _ => true
  }

  function Step(s: State, a: Action): State
    requires Enabled(s, a)
  {
    match a
    case Tick(ms) => s.(now := s.now + ms)
    case Issue(subject, l) => IssuedState(s, subject, l)
    case Look(kind, credential, l) => LookedUp(s, kind, credential, l)
    case Prepare(i, subjectActive) => Prepared(s, i, subjectActive)
    case Commit(i) => Committed(s, i)
    case Acknowledge(i) => With(s, i, Acknowledged(s.calls[i], s.now))
    case Leave(credential) => RevokeRead(s, credential)
    case CommitLeave(i) => RevokeCommitted(s, i)
    case AdminRevoke(id, expected, at) => s.(records := RevokedRevision(s.records, id, expected, at, s.now))
  }

  // ---- How a record moves on ----

  /** Lifetimes only shrink, times only grow, and a renewal keeps its distance from the one before. */
  ghost predicate Moves(a: Session, b: Session) {
    && a.subject == b.subject && a.issuedAt == b.issuedAt && a.revision <= b.revision
    && b.expiresAt <= a.expiresAt && b.idleTimeoutMs <= a.idleTimeoutMs && b.renewAfterMs >= a.renewAfterMs
    && a.renewedAt <= b.renewedAt && a.lastActiveAt <= b.lastActiveAt && a.digest <= b.digest
    && (a.revokedAt.Some? ==> b == a)
    && (b.renewedAt == a.renewedAt || b.renewedAt >= a.renewedAt + a.renewAfterMs)
    && (b.digest == a.digest <==> b.renewedAt == a.renewedAt)
    && (a.revision == b.revision ==> b == a.(revokedAt := b.revokedAt))
  }

  ghost predicate Later(s: State, t: State) {
    && s.now <= t.now && s.nonce <= t.nonce
    && (forall id | id in s.records :: id in t.records && Moves(s.records[id], t.records[id]))
  }

  lemma MovesTransitive(a: Session, b: Session, c: Session)
    requires Moves(a, b) && Moves(b, c) && a.renewAfterMs > 0 && b.renewAfterMs > 0 && c.renewAfterMs > 0
    ensures Moves(a, c)
  {
  }

  // ---- What holds of every record and call ----

  ghost predicate RecordsOk(s: State) {
    forall id {:trigger RecordOk(s, id)} | id in s.records :: RecordOk(s, id)
  }

  ghost predicate RecordOk(s: State, id: nat)
    requires id in s.records
  {
    RecordValid(s.records[id], s.now) && s.records[id].digest < s.nonce && id < s.nonce
  }

  /** A record read earlier, and what is in the store now. */
  ghost predicate Seen(s: State, id: nat, base: Session) {
    && id in s.records && Moves(base, s.records[id]) && RecordValid(base, s.now) && base.revokedAt.None?
  }

  ghost predicate Retired(s: State, c: Credential) {
    c.id in s.records && c.secret < s.records[c.id].digest
  }

  /** What a write asks for is within what it was computed from. */
  ghost predicate ChangeOk(s: State, c: Call)
    requires c.Sending?
  {
    && c.change.id == c.credential.id == c.renewed.id && c.change.base.digest == c.credential.secret
    && c.change.next.digest == c.renewed.secret
    && Seen(s, c.change.id, c.change.base) && c.change.now <= s.now
    && c.change.base.lastActiveAt <= c.change.now
    && c.renewed.secret < s.nonce
    && c.change.next.revision == c.change.base.revision + 1
    && c.change.next.lastActiveAt == c.change.now && c.change.base.issuedAt < c.change.next.expiresAt
    && 0 < c.change.next.idleTimeoutMs <= c.change.base.idleTimeoutMs
    && c.change.next.expiresAt <= c.change.base.expiresAt
    && c.change.next.renewAfterMs == Max(c.change.base.renewAfterMs, c.lifetime.renewAfter)
    && (if c.change.kind.Renew?
        then c.change.base.digest < c.change.next.digest && c.change.next.renewedAt == c.change.now
             && c.change.now >= c.change.base.renewedAt + c.change.next.renewAfterMs
        else c.change.next.digest == c.change.base.digest && c.change.next.renewedAt == c.change.base.renewedAt)
  }

  ghost predicate CallOk(s: State, c: Call) {
    match c
    case Found(_, credential, l, base, expiry) =>
      Seen(s, credential.id, base) && base.digest == credential.secret && LifetimeOk(l) && base.digest < s.nonce
    case Sending(_, _, _, _) => ChangeOk(s, c)
    case Stored(credential, _, done) => done.kind.Renew? ==> Retired(s, credential)
    case Returned(was, _, _, rotated) => rotated ==> Retired(s, was)
    case Leaving(id, at) => id in s.records && s.records[id].issuedAt <= at
    case _ => true
  }

  ghost predicate CallsOk(s: State) {
    forall i {:trigger CallOk(s, s.calls[i])} | 0 <= i < |s.calls| :: CallOk(s, s.calls[i])
  }

  /** The credential a call has rotated away. */
  function Rotates(c: Call): Option<Credential> {
    if c.Stored? && c.done.kind.Renew? then Some(c.credential)
    else if c.Returned? && c.rotated then Some(c.was)
    else None
  }

  ghost predicate RotatedOnce(s: State) {
    forall i, j {:trigger Rotates(s.calls[i]), Rotates(s.calls[j])} | 0 <= i < j < |s.calls| ::
      Rotates(s.calls[i]).None? || Rotates(s.calls[i]) != Rotates(s.calls[j])
  }

  ghost predicate Inv(s: State) {
    RecordsOk(s) && CallsOk(s) && RotatedOnce(s)
  }

  lemma CallStays(s: State, t: State, c: Call)
    requires CallOk(s, c) && Later(s, t) && RecordsOk(s) && RecordsOk(t)
    ensures CallOk(t, c)
  {
    match c
    case Found(_, credential, _, base, _) => SeenStays(s, t, credential.id, base);
    case Sending(_, _, _, m) => SeenStays(s, t, m.id, m.base);
    case Stored(credential, _, m) =>
      if m.kind.Renew? { assert Moves(s.records[credential.id], t.records[credential.id]); }
    case Returned(was, _, _, rotated) => if rotated { assert Moves(s.records[was.id], t.records[was.id]); }
    case Leaving(id, _) => assert Moves(s.records[id], t.records[id]);
    case _ =>
  }

  lemma SeenStays(s: State, t: State, id: nat, base: Session)
    requires Seen(s, id, base) && Later(s, t) && RecordsOk(s) && RecordsOk(t)
    ensures Seen(t, id, base)
  {
    assert RecordOk(s, id) && RecordOk(t, id);
    MovesTransitive(base, s.records[id], t.records[id]);
  }

  /** At most one call moves; it may rotate a credential nobody has rotated. */
  lemma OneMoves(s: State, t: State, i: nat)
    requires Inv(s) && Later(s, t) && RecordsOk(t)
    requires |s.calls| <= |t.calls| <= |s.calls| + 1 && (|t.calls| > |s.calls| ==> i == |s.calls|)
    requires forall j | 0 <= j < |s.calls| && j != i :: t.calls[j] == s.calls[j]
    requires i < |t.calls| ==> CallOk(t, t.calls[i])
    requires i < |t.calls| ==>
               var c := Rotates(t.calls[i]);
               c.None? || (i < |s.calls| && c == Rotates(s.calls[i])) || !Retired(s, c.value)
    ensures Inv(t)
  {
    forall j | 0 <= j < |t.calls| ensures CallOk(t, t.calls[j]) {
      if j != i {
        assert CallOk(s, s.calls[j]);
        CallStays(s, t, s.calls[j]);
      }
    }
    forall j, k | 0 <= j < k < |t.calls| ensures Rotates(t.calls[j]).None? || Rotates(t.calls[j]) != Rotates(t.calls[k])
    {
      RotationsDiffer(s, t, i, j, k);
    }
  }

  lemma RotationsDiffer(s: State, t: State, i: nat, j: nat, k: nat)
    requires Inv(s) && j < k < |t.calls| && |s.calls| <= |t.calls|
             && (|t.calls| > |s.calls| ==> i == |s.calls| == |t.calls| - 1)
    requires forall j | 0 <= j < |s.calls| && j != i :: t.calls[j] == s.calls[j]
    requires i < |t.calls| ==>
               var c := Rotates(t.calls[i]);
               c.None? || (i < |s.calls| && c == Rotates(s.calls[i])) || !Retired(s, c.value)
    ensures Rotates(t.calls[j]).None? || Rotates(t.calls[j]) != Rotates(t.calls[k])
  {
    if j < |s.calls| { assert CallOk(s, s.calls[j]); }
    if k < |s.calls| { assert CallOk(s, s.calls[k]); }
  }

  lemma SameRecordsAreLater(s: State, t: State)
    requires RecordsOk(s) && t.records == s.records && s.now <= t.now && s.nonce <= t.nonce
    ensures Later(s, t) && RecordsOk(t)
  {
    forall id | id in t.records
      ensures RecordOk(t, id) && Moves(s.records[id], t.records[id])
    {
      assert RecordOk(s, id);
    }
  }

  // ---- Steps ----

  lemma IssueKeeps(s: State, subject: string, l: Lifetime)
    requires Inv(s) && LifetimeOk(l)
    ensures Inv(IssuedState(s, subject, l)) && Later(s, IssuedState(s, subject, l))
  {
    var t := IssuedState(s, subject, l);
    forall id | id in s.records ensures Moves(s.records[id], t.records[id]) { assert RecordOk(s, id); }
    forall id | id in t.records ensures RecordOk(t, id) { if id in s.records { assert RecordOk(s, id); } }
    OneMoves(s, t, |t.calls|);
  }

  lemma LookKeeps(s: State, kind: Kind, credential: Credential, l: Lifetime)
    requires Inv(s) && LifetimeOk(l)
    ensures Inv(LookedUp(s, kind, credential, l)) && Later(s, LookedUp(s, kind, credential, l))
  {
    var t := LookedUp(s, kind, credential, l);
    SameRecordsAreLater(s, t);
    if credential.id in s.records { assert RecordOk(s, credential.id); }
    OneMoves(s, t, |s.calls|);
  }

  lemma PrepareKeeps(s: State, i: nat, subjectActive: bool)
    requires Inv(s) && i < |s.calls| && s.calls[i].Found?
    ensures Inv(Prepared(s, i, subjectActive)) && Later(s, Prepared(s, i, subjectActive))
  {
    var t := Prepared(s, i, subjectActive);
    assert CallOk(s, s.calls[i]);
    SameRecordsAreLater(s, t);
    OneMoves(s, t, i);
  }

  /** A write over the record it was computed from moves that record on. */
  lemma WriteMoves(s: State, c: Call)
    requires c.Sending? && ChangeOk(s, c) && RecordsOk(s)
             && MayWrite(s.records[c.change.id], c.change, Max(c.change.now, s.now))
    ensures s.records[c.change.id] == c.change.base
    ensures var b := Columns(s.records[c.change.id], c.change.next);
            Moves(c.change.base, b) && RecordValid(b, s.now) && b.digest < s.nonce
    ensures c.change.kind.Renew? ==>
              c.change.next.renewedAt >= s.records[c.change.id].renewedAt + c.change.next.renewAfterMs
  {
    assert RecordOk(s, c.change.id);
  }

  lemma CommitKeeps(s: State, i: nat)
    requires Inv(s) && i < |s.calls| && s.calls[i].Sending?
    ensures Inv(Committed(s, i)) && Later(s, Committed(s, i))
  {
    var t, c := Committed(s, i), s.calls[i];
    assert CallOk(s, c);
    if MayWrite(s.records[c.change.id], c.change, Max(c.change.now, s.now)) {
      WriteMoves(s, c);
      OthersStay(s, t, c.change.id);
      OneMoves(s, t, i);
    } else {
      SameRecordsAreLater(s, t);
      OneMoves(s, t, i);
    }
  }

  /** Only one record changed, and it moved on. */
  lemma OthersStay(s: State, t: State, id: nat)
    requires RecordsOk(s) && id in s.records && id in t.records && t.records == s.records[id := t.records[id]]
    requires s.now <= t.now && s.nonce <= t.nonce && Moves(s.records[id], t.records[id])
    requires RecordValid(t.records[id], t.now) && t.records[id].digest < t.nonce
    ensures Later(s, t) && RecordsOk(t)
  {
    forall k | k in t.records ensures RecordOk(t, k) && Moves(s.records[k], t.records[k]) { assert RecordOk(s, k); }
  }

  lemma RevokesKeep(s: State, t: State, id: nat, i: nat)
    requires Inv(s) && id in s.records && id in t.records && t == s.(records := t.records, calls := t.calls)
    requires t.records == s.records[id := t.records[id]] && s.records[id].revokedAt.None?
    requires t.records[id] == s.records[id].(revokedAt := t.records[id].revokedAt, revision := t.records[id].revision)
    requires t.records[id].revokedAt.Some? && t.records[id].revokedAt.value >= s.records[id].issuedAt
    requires t.records[id].revision >= s.records[id].revision
    requires |t.calls| == |s.calls| && forall j | 0 <= j < |s.calls| && j != i :: t.calls[j] == s.calls[j]
    requires i < |s.calls| ==> t.calls[i].Left?
    ensures Inv(t) && Later(s, t)
  {
    assert RecordOk(s, id);
    OthersStay(s, t, id);
    OneMoves(s, t, i);
  }

  lemma LeaveKeeps(s: State, i: nat)
    requires Inv(s) && i < |s.calls| && s.calls[i].Leaving?
    ensures Inv(RevokeCommitted(s, i)) && Later(s, RevokeCommitted(s, i))
  {
    var t, c := RevokeCommitted(s, i), s.calls[i];
    assert CallOk(s, c);
    if Revocable(s.records, c.id) {
      RevokesKeep(s, t, c.id, i);
    } else {
      SameRecordsAreLater(s, t);
      OneMoves(s, t, i);
    }
  }

  lemma AdminKeeps(s: State, id: nat, expected: nat, at: nat)
    requires Inv(s)
    ensures var t := s.(records := RevokedRevision(s.records, id, expected, at, s.now)); Inv(t) && Later(s, t)
  {
    var t := s.(records := RevokedRevision(s.records, id, expected, at, s.now));
    if Revocable(s.records, id) && s.records[id].revision == expected {
      RevokesKeep(s, t, id, |s.calls|);
    } else {
      SameRecordsAreLater(s, t);
      OneMoves(s, t, |s.calls|);
    }
  }

  lemma QuietKeeps(s: State, a: Action)
    requires Inv(s) && Enabled(s, a) && (a.Tick? || a.Acknowledge? || a.Leave?)
    ensures Inv(Step(s, a)) && Later(s, Step(s, a))
  {
    var t := Step(s, a);
    SameRecordsAreLater(s, t);
    if a.Acknowledge? {
      assert CallOk(s, s.calls[a.call]);
      OneMoves(s, t, a.call);
    } else {
      if a.Leave? && a.credential.id in s.records { assert RecordOk(s, a.credential.id); }
      OneMoves(s, t, |s.calls|);
    }
  }

  lemma StepKeeps(s: State, a: Action)
    requires Inv(s) && Enabled(s, a)
    ensures Inv(Step(s, a)) && Later(s, Step(s, a))
  {
    match a
    case Issue(subject, l) => IssueKeeps(s, subject, l);
    case Look(kind, credential, l) => LookKeeps(s, kind, credential, l);
    case Prepare(i, subjectActive) => PrepareKeeps(s, i, subjectActive);
    case Commit(i) => CommitKeeps(s, i);
    case CommitLeave(i) => LeaveKeeps(s, i);
    case AdminRevoke(id, expected, at) => AdminKeeps(s, id, expected, at);
    case _ => QuietKeeps(s, a);
  }

  // ---- Runs ----

  ghost predicate Initial(s: State) {
    s.records == map[] && s.calls == []
  }

  ghost predicate Run(s: State, actions: seq<Action>, t: State)
    decreases |actions|
  {
    if actions == [] then s == t else Enabled(s, actions[0]) && Run(Step(s, actions[0]), actions[1..], t)
  }

  lemma LaterTransitive(s: State, t: State, u: State)
    requires Later(s, t) && Later(t, u) && RecordsOk(s) && RecordsOk(t) && RecordsOk(u)
    ensures Later(s, u)
  {
    forall id | id in s.records ensures id in u.records && Moves(s.records[id], u.records[id]) {
      assert RecordOk(s, id) && RecordOk(t, id) && RecordOk(u, id);
      MovesTransitive(s.records[id], t.records[id], u.records[id]);
    }
  }

  lemma {:induction false} RunKeeps(s: State, actions: seq<Action>, t: State)
    requires Inv(s) && Run(s, actions, t)
    ensures Inv(t) && Later(s, t)
    decreases |actions|
  {
    if actions == [] {
      SameRecordsAreLater(s, t);
    } else {
      var m := Step(s, actions[0]);
      StepKeeps(s, actions[0]);
      RunKeeps(m, actions[1..], t);
      LaterTransitive(s, m, t);
    }
  }

  /** Whatever lifetimes later calls bring, a session's own limits only tighten, and renewals keep their distance. */
  lemma {:induction false} SessionsOnlyTighten(s: State, actions: seq<Action>, t: State, id: nat)
    requires Inv(s) && Run(s, actions, t) && id in s.records
    ensures id in t.records
    ensures t.records[id].expiresAt <= s.records[id].expiresAt
            && t.records[id].idleTimeoutMs <= s.records[id].idleTimeoutMs
    ensures t.records[id].renewAfterMs >= s.records[id].renewAfterMs
    ensures || t.records[id].renewedAt == s.records[id].renewedAt
            || t.records[id].renewedAt >= s.records[id].renewedAt + s.records[id].renewAfterMs
    ensures s.records[id].revokedAt.Some? ==> t.records[id] == s.records[id]
  {
    RunKeeps(s, actions, t);
  }

  /** A renewal comes no sooner after the last one than the interval it stores itself. */
  lemma RenewalsKeepDistance(s: State, a: Action, id: nat)
    requires Inv(s) && Enabled(s, a) && id in s.records
    ensures id in Step(s, a).records
    ensures var before, after := s.records[id], Step(s, a).records[id];
            after.renewedAt == before.renewedAt || after.renewedAt >= before.renewedAt + after.renewAfterMs
  {
    if a.Commit? {
      var c := s.calls[a.call];
      assert CallOk(s, c);
      if MayWrite(s.records[c.change.id], c.change, Max(c.change.now, s.now)) { WriteMoves(s, c); }
    }
    assert a.Issue? ==> RecordOk(s, id);
  }

  /** How far the last renewal was from the one before, or from issue: known once there has been one. */
  function Distance(before: Session, after: Session, d: Option<int>): Option<int> {
    if after.renewedAt != before.renewedAt then Some(after.renewedAt - before.renewedAt) else d
  }

  /** The last renewal kept the interval the record holds now. */
  predicate Apart(r: Session, d: Option<int>) {
    d.Some? ==> d.value >= r.renewAfterMs
  }

  /** A touch is written whose configured interval is longer than that distance. */
  predicate Stretches(s: State, a: Action, id: nat, d: Option<int>)
    requires Enabled(s, a)
  {
    && a.Commit?
    && var c := s.calls[a.call];
       && c.change.id == id && id in s.records && c.change.kind.Touch?
       && MayWrite(s.records[id], c.change, Max(c.change.now, s.now))
       && d.Some? && c.lifetime.renewAfter > d.value
  }

  /** Exactly when a step breaks the distance between the last two renewals: it writes a touch configured with a longer
      interval. A renewal never does. */
  lemma DistanceBreaksExactly(s: State, a: Action, id: nat, d: Option<int>)
    requires Inv(s) && Enabled(s, a) && id in s.records && Apart(s.records[id], d)
    ensures id in Step(s, a).records
    ensures var after := Step(s, a).records[id];
            Apart(after, Distance(s.records[id], after, d)) <==> !Stretches(s, a, id, d)
  {
    if a.Commit? {
      var c := s.calls[a.call];
      assert CallOk(s, c);
      if c.change.id in s.records && MayWrite(s.records[c.change.id], c.change, Max(c.change.now, s.now)) {
        WriteMoves(s, c);
      }
    }
    assert a.Issue? ==> RecordOk(s, id);
  }

  /** The distance carried along a run, and whether any step stretches the interval. */
  ghost function DistanceAfter(s: State, actions: seq<Action>, id: nat, d: Option<int>): Option<int>
    decreases |actions|
  {
    if actions == [] || !Enabled(s, actions[0]) || id !in s.records || id !in Step(s, actions[0]).records then d
    else
      var t := Step(s, actions[0]);
      DistanceAfter(t, actions[1..], id, Distance(s.records[id], t.records[id], d))
  }

  ghost predicate NeverStretches(s: State, actions: seq<Action>, id: nat, d: Option<int>)
    decreases |actions|
  {
    actions != [] && Enabled(s, actions[0]) && id in s.records && id in Step(s, actions[0]).records ==>
      var t := Step(s, actions[0]);
      !Stretches(s, actions[0], id, d) && NeverStretches(t, actions[1..], id, Distance(s.records[id], t.records[id], d))
  }

  /** Over any run without such a touch the last renewal stays as far from the one before as the record asks. */
  lemma {:induction false} RenewalsStayApart(s: State, actions: seq<Action>, t: State, id: nat, d: Option<int>)
    requires Inv(s) && Run(s, actions, t) && id in s.records && Apart(s.records[id], d)
    requires NeverStretches(s, actions, id, d)
    ensures id in t.records && Apart(t.records[id], DistanceAfter(s, actions, id, d))
    decreases |actions|
  {
    if actions != [] {
      var m := Step(s, actions[0]);
      DistanceBreaksExactly(s, actions[0], id, d);
      StepKeeps(s, actions[0]);
      RenewalsStayApart(m, actions[1..], t, id, Distance(s.records[id], m.records[id], d));
    }
  }

  const EMPTY := State(0, 0, map[], [])
  const SHORT := Lifetime(100, 1000, 10)
  const LONG := Lifetime(100, 1000, 50)

  function RenewedEarly(): State {
    State(10, 2, map[0 := Next(Renew, Issued("s", 0, SHORT, 0), 1, SHORT, 10)],
          [Stored(Credential(0, 0), Credential(0, 1),
                  Mutation(Renew, 0, Issued("s", 0, SHORT, 0), 10,
                      Next(Renew, Issued("s", 0, SHORT, 0), 1, SHORT, 10)))])
  }

  lemma {:induction false} FiveSteps(s: State, run: seq<Action>)
    requires |run| == 5 && Enabled(s, run[0])
    requires var one := Step(s, run[0]); Enabled(one, run[1])
    requires var two := Step(Step(s, run[0]), run[1]); Enabled(two, run[2])
    requires var three := Step(Step(Step(s, run[0]), run[1]), run[2]); Enabled(three, run[3])
    requires var four := Step(Step(Step(Step(s, run[0]), run[1]), run[2]), run[3]); Enabled(four, run[4])
    ensures Run(s, run, Step(Step(Step(Step(Step(s, run[0]), run[1]), run[2]), run[3]), run[4]))
  {
    hide Step, Enabled;
    var one := Step(s, run[0]);
    var two := Step(one, run[1]);
    var three := Step(two, run[2]);
    var four := Step(three, run[3]);
    var five := Step(four, run[4]);
    assert run[4..][1..] == [] && run[3..][1..] == run[4..] && run[2..][1..] == run[3..] && run[1..][1..] == run[2..];
    assert Run(four, run[4..], five);
    assert Run(three, run[3..], five);
    assert Run(two, run[2..], five);
    assert Run(one, run[1..], five);
  }

  lemma RenewsEarly() returns (run: seq<Action>)
    ensures Run(EMPTY, run, RenewedEarly())
  {
    run := [Issue("s", SHORT), Tick(10), Look(Renew, Credential(0, 0), SHORT), Prepare(0, true), Commit(0)];
    var one := Step(EMPTY, run[0]);
    var two := Step(one, run[1]);
    var three := Step(two, run[2]);
    var four := Step(three, run[3]);
    assert Step(four, run[4]) == RenewedEarly();
    FiveSteps(EMPTY, run);
  }

  lemma TouchesLonger() returns (run: seq<Action>, t: State)
    ensures Run(RenewedEarly(), run, t) && 0 in t.records
    ensures t.records[0].renewedAt == 10 && t.records[0].issuedAt == 0 && t.records[0].renewAfterMs == 50
  {
    run := [Tick(1), Look(Touch, Credential(0, 1), LONG), Prepare(1, true), Commit(1)];
    var one := Step(RenewedEarly(), run[0]);
    var two := Step(one, run[1]);
    var three := Step(two, run[2]);
    t := Step(three, run[3]);
    assert run[3..][1..] == [] && run[2..][1..] == run[3..] && run[1..][1..] == run[2..];
    assert Run(three, run[3..], t);
    assert Run(two, run[2..], t);
    assert Run(one, run[1..], t);
  }

  lemma {:induction false} RunJoins(s: State, first: seq<Action>, t: State, second: seq<Action>, u: State)
    requires Run(s, first, t) && Run(t, second, u)
    ensures Run(s, first + second, u)
    decreases |first|
  {
    if first == [] {
      assert first + second == second;
    } else {
      assert (first + second)[1..] == first[1..] + second;
      RunJoins(Step(s, first[0]), first[1..], t, second, u);
    }
  }

  /** A session issued at 0 and renewed at 10 is touched at 11 by a service configured with an interval of 50: the
      renewal was closer to the issue than the record now asks. */
  lemma LaterIntervalMayExceedDistance() returns (run: seq<Action>, t: State)
    ensures Initial(EMPTY) && Run(EMPTY, run, t) && 0 in t.records
    ensures t.records[0].renewedAt != t.records[0].issuedAt
    ensures t.records[0].renewedAt - t.records[0].issuedAt < t.records[0].renewAfterMs
  {
    var renews := RenewsEarly();
    var touches;
    touches, t := TouchesLonger();
    RunJoins(EMPTY, renews, RenewedEarly(), touches, t);
    run := renews + touches;
  }

  /** No record the service writes is ever one that `recordValid` turns away. */
  lemma {:induction false} RecordsStayValid(s: State, actions: seq<Action>, t: State, id: nat)
    requires Initial(s) && Run(s, actions, t) && id in t.records
    ensures RecordValid(t.records[id], t.now)
    ensures var r := t.records[id];
            && r.revision >= 1 && 0 <= r.issuedAt <= r.renewedAt <= r.lastActiveAt <= t.now
            && r.issuedAt < r.expiresAt && 0 < r.idleTimeoutMs && 0 < r.renewAfterMs
            && (r.revokedAt.Some? ==> r.issuedAt <= r.revokedAt.value)
  {
    RunKeeps(s, actions, t);
    assert RecordOk(t, id);
  }

  /** Nobody is let in past the limits the session had at any earlier time, nor with a credential that was replaced. */
  lemma {:induction false} AcceptedOnlyWithinLimits(s: State, actions: seq<Action>, t: State, credential: Credential,
      l: Lifetime)
    requires Inv(s) && Run(s, actions, t) && credential.id in s.records && credential.id in t.records
    requires Accepts(t.records[credential.id], credential.secret, l, t.now)
    ensures t.now < s.records[credential.id].expiresAt
    ensures s.records[credential.id].revokedAt.None? && s.records[credential.id].digest <= credential.secret
    ensures t.now < t.records[credential.id].lastActiveAt + s.records[credential.id].idleTimeoutMs
    ensures t.now < s.records[credential.id].issuedAt + l.absolute
  {
    RunKeeps(s, actions, t);
    assert Moves(s.records[credential.id], t.records[credential.id]);
  }

  /** Of all renewals of one credential at most one succeeds, and from then on lookup refuses it under any lifetimes. */
  lemma {:induction false} OneRenewalPerCredential(s: State, actions: seq<Action>, t: State, i: nat, j: nat,
      l: Lifetime)
    requires Initial(s) && Run(s, actions, t) && i < |t.calls| && j < |t.calls|
    requires t.calls[i].Returned? && t.calls[i].rotated
    ensures t.calls[j].Returned? && t.calls[j].rotated && t.calls[j].was == t.calls[i].was ==> i == j
    ensures var was := t.calls[i].was; was.id in t.records && !Accepts(t.records[was.id], was.secret, l, t.now)
  {
    RunKeeps(s, actions, t);
    assert CallOk(t, t.calls[i]);
    assert Rotates(t.calls[i]) == Some(t.calls[i].was);
    if t.calls[j].Returned? && t.calls[j].rotated { assert Rotates(t.calls[j]) == Some(t.calls[j].was); }
  }

  /** A refused credential stays refused: once replaced, or once its session is revoked. */
  lemma {:induction false} RefusalLasts(s: State, actions: seq<Action>, t: State, credential: Credential, l: Lifetime)
    requires Inv(s) && Run(s, actions, t)
    requires Retired(s, credential) || (credential.id in s.records && s.records[credential.id].revokedAt.Some?)
    ensures credential.id in t.records && !Accepts(t.records[credential.id], credential.secret, l, t.now)
    ensures var u := LookedUp(t, Renew, credential, l); u.calls[|t.calls|] == Unauthorized
  {
    RunKeeps(s, actions, t);
    assert Moves(s.records[credential.id], t.records[credential.id]);
  }
}
