/** A run from the empty store in which a rotated refresh token comes back and its grant is not revoked. */
module OAuthReplay {
  import opened Basics
  import opened OAuthServer
  import opened OAuthRuns

  const SCOPES: seq<string> := ["read"]
  const VERIFIER: string := "vvvvvvvvvvvvvvvvvvvvvvvvvvvvvvvvvvvvvvvvvvv"
  const REQUEST := Digest(Token(RequestSecret, 0, 0))
  const CODE := Token(CodeSecret, 0, 2)
  const FIRST := Token(RefreshSecret, 1, 3)
  const SECOND := Token(RefreshSecret, 1, 4)

  const EMPTY := State("resource", 0, 0, map[], map[], map[], [], map[], map[])

  // ---- The records on the way ----

  function Request(used: bool): Pending {
    Pending("client", "redirect", Proof(VERIFIER), SCOPES, used)
  }

  function RequestRow(subject: string, revision: nat, used: bool): Record<Pending> {
    Record(subject, REQUEST_MS, revision, Request(used))
  }

  function CodeRow(revision: nat, used: bool): Record<Code> {
    Record("alice", CODE_MS, revision, Code("client", "redirect", Proof(VERIFIER), 1, used))
  }

  function Unissued(): Grant {
    Grant("client", "alice", "resource", SCOPES, 0, GRANT_MS, false, NoHash, 0, NoHash, [])
  }

  function Issued(): Grant {
    Tokens(Unissued(), 1, 3, 0)
  }

  function Refreshed(): Grant {
    Tokens(Issued().(usedRefresh := [Digest(FIRST)]), 1, 4, 0)
  }

  function GrantRow(revision: nat, g: Grant): Record<Grant> {
    Record("alice", GRANT_MS, revision, g)
  }

  // ---- The run, three steps at a time ----

  function Opened(): State {
    EMPTY.(nonce := 1, begun := map[REQUEST := SCOPES], requests := map[REQUEST := RequestRow("", 0, false)],
           threads := [Asking(REQUEST, "alice", Some(true), Narrow, RequestRow("", 0, false),
               RequestRow("alice", 0, false),
                              false)])
  }

  function Viewed(): State {
    Opened().(requests := map[REQUEST := RequestRow("alice", 1, false)],
              threads := [Asking(REQUEST, "alice", Some(true), Decide, RequestRow("alice", 1, false),
                                 RequestRow("alice", 1, true), false)])
  }

  function Approved(): State {
    Viewed().(nonce := 2, requests := map[REQUEST := RequestRow("alice", 2, true)],
              grants := map[1 := GrantRow(0, Unissued())], approvals := map[1 := Approval(REQUEST, "alice", SCOPES)],
              threads := [Coding("alice", Request(true), 1)])
  }

  function Redeemed(): State {
    Approved().(nonce := 3, codes := map[Digest(CODE) := CodeRow(0, false)],
                threads := [Ended(Redirected(CODE)), Exchanging(CODE, CodeRow(0, false), GrantRow(0, Unissued()))])
  }

  function Spent(): State {
    Redeemed().(nonce := 4, codes := map[Digest(CODE) := CodeRow(1, true)],
                threads := [Ended(Redirected(CODE)),
                            Minting(ByCode(CODE), 1, GrantRow(0, Unissued()), Issued(), Token(AccessSecret, 1, 3),
                                FIRST,
                                    false)])
  }

  function Responded(): State {
    Spent().(grants := map[1 := GrantRow(1, Issued())],
             threads := [Ended(Redirected(CODE)), Answered(ByCode(CODE), Token(AccessSecret, 1, 3), FIRST),
                         Refreshing(FIRST, None, GrantRow(1, Issued()))])
  }

  function Rotated(): State {
    Responded().(nonce := 5, grants := map[1 := GrantRow(2, Refreshed())],
                 threads := [Ended(Redirected(CODE)), Answered(ByCode(CODE), Token(AccessSecret, 1, 3), FIRST),
                             Answered(ByRefresh(FIRST), Token(AccessSecret, 1, 4), SECOND)])
  }

  lemma {:induction false} RunsThree(s: State, run: seq<Action>, one: State, two: State, t: State)
    requires |run| == 3 && Enabled(s, run[0]) && one == Step(s, run[0]) && Enabled(one, run[1])
             && two == Step(one, run[1])
    requires Enabled(two, run[2]) && t == Step(two, run[2])
    ensures Run(s, run, t)
  {
    assert run[2..][1..] == [] && run[1..][1..] == run[2..];
    assert Run(two, run[2..], t);
    assert Run(one, run[1..], t);
  }

  lemma Opens() returns (run: seq<Action>)
    ensures Run(EMPTY, run, Opened())
  {
    run := [Begin("client", "redirect", Proof(VERIFIER), SCOPES), OpenConsent(REQUEST, "alice", Some(true)),
            Permit(0, Some(SCOPES))];
    assert Filtered(SCOPES, SCOPES) == SCOPES;
    var one := Step(EMPTY, run[0]);
    var two := Step(one, run[1]);
    RunsThree(EMPTY, run, one, two, Opened());
  }

  lemma Views() returns (run: seq<Action>)
    ensures Run(Opened(), run, Viewed())
  {
    run := [Commit(0), Acknowledge(0), View(0, true)];
    var one := Step(Opened(), run[0]);
    var two := Step(one, run[1]);
    RunsThree(Opened(), run, one, two, Viewed());
  }

  lemma Approves() returns (run: seq<Action>)
    ensures Run(Viewed(), run, Approved())
  {
    run := [Commit(0), Acknowledge(0), InsertGrant(0)];
    var one := Step(Viewed(), run[0]);
    var two := Step(one, run[1]);
    RunsThree(Viewed(), run, one, two, Approved());
  }

  lemma VerifierIsOk()
    ensures VerifierOk(VERIFIER)
  {
    assert forall i | 0 <= i < |VERIFIER| :: VERIFIER[i] == 'v';
  }

  lemma Redeems() returns (run: seq<Action>)
    ensures Run(Approved(), run, Redeemed())
  {
    run := [InsertCode(0), PresentCode(CODE, "client", "redirect", VERIFIER), ReadGrant(1)];
    VerifierIsOk();
    var one := Step(Approved(), run[0]);
    var two := Step(one, run[1]);
    RunsThree(Approved(), run, one, two, Redeemed());
  }

  lemma Spends() returns (run: seq<Action>)
    ensures Run(Redeemed(), run, Spent())
  {
    run := [Permit(1, Some(SCOPES)), Commit(1), Acknowledge(1)];
    var one := Step(Redeemed(), run[0]);
    var two := Step(one, run[1]);
    RunsThree(Redeemed(), run, one, two, Spent());
  }

  lemma Responds() returns (run: seq<Action>)
    ensures Run(Spent(), run, Responded())
  {
    run := [Commit(1), Acknowledge(1), PresentRefresh(FIRST, "client", None)];
    var one := Step(Spent(), run[0]);
    var two := Step(one, run[1]);
    RunsThree(Spent(), run, one, two, Responded());
  }

  lemma Rotates() returns (run: seq<Action>)
    ensures Run(Responded(), run, Rotated())
  {
    run := [Permit(2, Some(SCOPES)), Commit(2), Acknowledge(2)];
    assert Issued().usedRefresh + [Digest(FIRST)] == [Digest(FIRST)];
    var one := Step(Responded(), run[0]);
    var two := Step(one, run[1]);
    RunsThree(Responded(), run, one, two, Rotated());
  }

  lemma ReachesApproval() returns (run: seq<Action>)
    ensures Run(EMPTY, run, Approved())
  {
    var opens := Opens();
    var views := Views();
    var approves := Approves();
    RunJoins(EMPTY, opens, Opened(), views, Viewed());
    RunJoins(EMPTY, opens + views, Viewed(), approves, Approved());
    run := opens + views + approves;
  }

  lemma ReachesRotation() returns (run: seq<Action>)
    ensures Run(Approved(), run, Rotated())
  {
    var redeems := Redeems();
    var spends := Spends();
    var responds := Responds();
    var rotates := Rotates();
    RunJoins(Approved(), redeems, Redeemed(), spends, Spent());
    RunJoins(Approved(), redeems + spends, Spent(), responds, Responded());
    RunJoins(Approved(), redeems + spends + responds, Responded(), rotates, Rotated());
    run := redeems + spends + responds + rotates;
  }

  lemma ReplayIsReady()
    ensures Replays(Rotated(), FIRST, "client") && Rotated().grants[1].value == Refreshed()
    ensures Refreshed().refreshHash == Digest(SECOND) && |Refreshed().usedRefresh| == 1 && Refreshed().scopes == SCOPES
  {
    assert Digest(FIRST) in Refreshed().usedRefresh;
  }

  /** From the empty store: a code is exchanged, its refresh token is rotated, and the old token comes back while the
      new one is being used. The replay is refused, and the grant lives on. */
  lemma ReplayMayLeaveGrantUnrevoked() returns (run: seq<Action>, t: State)
    ensures Initial(EMPTY) && Run(EMPTY, run, t)
    ensures 5 <= |run| && run[|run| - 5..] == Race(FIRST, SECOND, "client", 3, SCOPES)
    ensures 3 < |t.threads| && t.threads[3] == Ended(Refused) && 1 in t.grants && !t.grants[1].value.revoked
  {
    var approval := ReachesApproval();
    var rotation := ReachesRotation();
    RunJoins(EMPTY, approval, Approved(), rotation, Rotated());
    ReplayIsReady();
    t := ReplayLosesRace(Rotated(), FIRST, SECOND, "client");
    var race := Race(FIRST, SECOND, "client", 3, SCOPES);
    RunJoins(EMPTY, approval + rotation, Rotated(), race, t);
    run := approval + rotation + race;
  }
}
