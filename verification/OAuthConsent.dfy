/** Who said yes: approvals, and the calls that lead to codes, come from consents opened with a positive decision. */
module OAuthConsent {
  import opened Basics
  import opened OAuthServer
  import opened OAuthRuns

  /** Someone asked for this with this decision. */
  predicate Said(past: seq<Action>, request: Hash, actor: string, decision: Option<bool>) {
    OpenConsent(request, actor, decision) in past
  }

  /** A call carries the decision it was opened with, and goes on to grant only after a yes. */
  ghost predicate Meant(past: seq<Action>, approvals: map<nat, Approval>, t: Thread) {
    match t
    case Consenting(request, actor, decision, _) => Said(past, request, actor, decision)
    case Asking(request, actor, decision, _, _, _, _) => Said(past, request, actor, decision)
    case Consented(request, actor, decision, _) => Said(past, request, actor, decision)
    case Granting(request, actor, _) => Said(past, request, actor, Some(true))
    case Coding(actor, _, id) =>
      id in approvals && approvals[id].subject == actor && Said(past, approvals[id].request, actor, Some(true))
    case _ => true
  }

  ghost predicate AllMeant(past: seq<Action>, s: State) {
    && (forall i {:trigger s.threads[i]} | 0 <= i < |s.threads| :: Meant(past, s.approvals, s.threads[i]))
    && (forall id | id in s.approvals ::
          id < s.nonce && Said(past, s.approvals[id].request, s.approvals[id].subject, Some(true)))
  }

  /** A step moves one call at most, and starts one at most. */
  predicate Touches(s: State, a: Action, i: nat) {
    i == |s.threads| || match a
                        case Permit(j, _) => i == j
                        case View(j, _) => i == j
                        case Commit(j) => i == j
                        case Acknowledge(j) => i == j
                        case InsertGrant(j) => i == j
                        case InsertCode(j) => i == j
                        case ReadGrant(j) => i == j
                        case Lose(j, _) => i == j
                        case ReadAgain(j) => i == j
                        case _ => false
  }

  predicate Starts(a: Action) {
    a.OpenConsent? || a.PresentCode? || a.PresentRefresh? || a.RevokeGrant? || a.RevokeToken?
  }

  ghost predicate StaysPut(s: State, a: Action, t: State, i: nat) {
    && |t.threads| == |s.threads| + (if Starts(a) then 1 else 0)
    && (i < |s.threads| && !Touches(s, a, i) ==> t.threads[i] == s.threads[i])
    && (a.InsertGrant? || t.approvals == s.approvals) && s.nonce <= t.nonce
  }

  lemma CallsStart(s: State, a: Action, i: nat)
    requires Starts(a)
    ensures StaysPut(s, a, Step(s, a), i)
  {
  }

  lemma PermitStaysPut(s: State, i: nat, j: nat, permissions: Option<seq<string>>)
    requires Enabled(s, Permit(j, permissions))
    ensures StaysPut(s, Permit(j, permissions), Step(s, Permit(j, permissions)), i)
  {
    hide RefreshPermitted;
    if s.threads[j].Refreshing? { RotationStaysPut(s, j, permissions, i); }
  }

  lemma RotationStaysPut(s: State, j: nat, permissions: Option<seq<string>>, i: nat)
    requires j < |s.threads| && s.threads[j].Refreshing?
    ensures StaysPut(s, Permit(j, permissions), RefreshPermitted(s, j, permissions), i)
    ensures var t := RefreshPermitted(s, j, permissions).threads[j]; t.Ended? || t.Revoking? || t.Minting?
  {
    hide Wanted, All, Tokens, Step;
  }

  lemma ReadStaysPut(s: State, a: Action, i: nat)
    requires Enabled(s, a) && (a.View? || a.ReadGrant? || a.ReadAgain?)
    ensures StaysPut(s, a, Step(s, a), i)
  {
  }

  lemma WritesStayPut(s: State, j: nat, i: nat)
    requires j < |s.threads|
    ensures s.threads[j].Asking? && !s.threads[j].acknowledged ==> StaysPut(s, Commit(j), AskCommitted(s, j), i)
    ensures s.threads[j].Spending? && !s.threads[j].acknowledged ==> StaysPut(s, Commit(j), CodeCommitted(s, j), i)
    ensures s.threads[j].Minting? && !s.threads[j].acknowledged ==> StaysPut(s, Commit(j), MintCommitted(s, j), i)
    ensures s.threads[j].Revoking? ==> StaysPut(s, Commit(j), RevokeCommitted(s, j), i)
  {
    hide Swapped, Matches, RevokedRecord, UsedCode, Saved, Step, Enabled;
  }

  lemma CommitStaysPut(s: State, j: nat, i: nat)
    requires Enabled(s, Commit(j))
    ensures StaysPut(s, Commit(j), Step(s, Commit(j)), i)
  {
    hide StaysPut, AskCommitted, CodeCommitted, MintCommitted, RevokeCommitted;
    WritesStayPut(s, j, i);
  }

  lemma LoseStaysPut(s: State, a: Action, i: nat)
    requires Enabled(s, a) && a.Lose?
    ensures StaysPut(s, a, Step(s, a), i)
  {
  }

  lemma MintingStaysPut(s: State, j: nat, i: nat)
    requires Enabled(s, Acknowledge(j)) && s.threads[j].Spending?
    ensures StaysPut(s, Acknowledge(j), CodeDone(s, j), i)
    ensures CodeDone(s, j).threads[j].Ended? || CodeDone(s, j).threads[j].Minting?
  {
  }

  lemma AcknowledgeStaysPut(s: State, j: nat, i: nat)
    requires Enabled(s, Acknowledge(j))
    ensures StaysPut(s, Acknowledge(j), Step(s, Acknowledge(j)), i)
  {
    hide CodeDone;
    if s.threads[j].Spending? { MintingStaysPut(s, j, i); }
  }

  lemma InsertStaysPut(s: State, a: Action, i: nat)
    requires Enabled(s, a) && (a.InsertGrant? || a.InsertCode?)
    ensures StaysPut(s, a, Step(s, a), i)
  {
  }

  lemma StoreStaysPut(s: State, a: Action, i: nat)
    requires a.Tick? || a.Begin? || a.Prune?
    ensures StaysPut(s, a, Step(s, a), i)
  {
  }

  lemma OthersStayPut(s: State, a: Action, i: nat)
    requires Enabled(s, a)
    ensures StaysPut(s, a, Step(s, a), i)
  {
    hide StaysPut;
    match a
    case Permit(j, permissions) => PermitStaysPut(s, i, j, permissions);
    case View(_, _) => ReadStaysPut(s, a, i);
    case ReadGrant(_) => ReadStaysPut(s, a, i);
    case ReadAgain(_) => ReadStaysPut(s, a, i);
    case Commit(j) => CommitStaysPut(s, j, i);
    case Lose(_, _) => LoseStaysPut(s, a, i);
    case Acknowledge(j) => AcknowledgeStaysPut(s, j, i);
    case InsertGrant(_) => InsertStaysPut(s, a, i);
    case InsertCode(_) => InsertStaysPut(s, a, i);
    case Tick(_) => StoreStaysPut(s, a, i);
    case Begin(_, _, _, _) => StoreStaysPut(s, a, i);
    case Prune(_, _, _, _) => StoreStaysPut(s, a, i);
    case _ => CallsStart(s, a, i);
  }

  // ---- A call carries its decision ----

  lemma SaidStays(past: seq<Action>, a: Action, approvals: map<nat, Approval>, t: Thread)
    requires Meant(past, approvals, t)
    ensures Meant(past + [a], approvals, t)
  {
    assert forall b | b in past :: b in past + [a];
  }

  lemma ConsentMeant(past: seq<Action>, s: State, a: Action)
    requires Enabled(s, a) && (a.Permit? || a.View?) && Meant(past, s.approvals, s.threads[a.thread])
    ensures Meant(past, Step(s, a).approvals, Step(s, a).threads[a.thread])
  {
    hide RefreshPermitted;
    if a.Permit? && s.threads[a.thread].Refreshing? { RotationStaysPut(s, a.thread, a.permissions, 0); }
  }

  lemma AskCommitMeant(past: seq<Action>, s: State, i: nat)
    requires Enabled(s, Commit(i)) && s.threads[i].Asking? && Meant(past, s.approvals, s.threads[i])
    ensures Meant(past, s.approvals, AskCommitted(s, i).threads[i])
  {
  }

  lemma WriteEnds(s: State, i: nat)
    requires i < |s.threads|
    ensures s.threads[i].Spending? && !s.threads[i].acknowledged ==>
              var t := CodeCommitted(s, i).threads[i]; t.Spending? || t.Ended?
    ensures s.threads[i].Minting? && !s.threads[i].acknowledged ==>
              var t := MintCommitted(s, i).threads[i]; t.Minting? || t.Ended?
    ensures s.threads[i].Revoking? ==> var t := RevokeCommitted(s, i).threads[i]; t.Rereading? || t.Ended?
  {
  }

  lemma CommitMeant(past: seq<Action>, s: State, i: nat)
    requires Enabled(s, Commit(i)) && Meant(past, s.approvals, s.threads[i])
    ensures Meant(past, s.approvals, Step(s, Commit(i)).threads[i])
  {
    hide AskCommitted, CodeCommitted, MintCommitted, RevokeCommitted;
    if s.threads[i].Asking? { AskCommitMeant(past, s, i); } else { WriteEnds(s, i); }
  }

  /** Only a call that said yes goes on to grant. */
  lemma AcknowledgeMeant(past: seq<Action>, s: State, i: nat)
    requires Enabled(s, Acknowledge(i)) && Meant(past, s.approvals, s.threads[i])
    ensures Meant(past, s.approvals, Step(s, Acknowledge(i)).threads[i])
  {
    hide CodeDone;
    if s.threads[i].Spending? { MintingStaysPut(s, i, i); }
  }

  lemma RestMeant(past: seq<Action>, s: State, a: Action)
    requires Enabled(s, a) && (a.InsertCode? || a.ReadGrant? || a.Lose? || a.ReadAgain?)
    ensures Meant(past, s.approvals, Step(s, a).threads[a.thread])
  {
  }

  lemma GrantMeant(past: seq<Action>, s: State, i: nat)
    requires Enabled(s, InsertGrant(i)) && AllMeant(past, s)
    ensures AllMeant(past, Step(s, InsertGrant(i)))
  {
    var t := Step(s, InsertGrant(i));
    assert Meant(past, s.approvals, s.threads[i]);
    forall j | 0 <= j < |t.threads| ensures Meant(past, t.approvals, t.threads[j]) {
      assert Meant(past, s.approvals, s.threads[j]);
    }
  }

  lemma StartMeant(past: seq<Action>, s: State, a: Action)
    requires Starts(a) && a in past + [a]
    ensures |Step(s, a).threads| == |s.threads| + 1
    ensures Meant(past + [a], s.approvals, Step(s, a).threads[|s.threads|])
  {
  }

  lemma MovedMeant(past: seq<Action>, s: State, a: Action, i: nat)
    requires Enabled(s, a) && i < |s.threads| && Touches(s, a, i) && !a.InsertGrant?
    requires Meant(past, s.approvals, s.threads[i]) && i < |Step(s, a).threads|
    ensures Meant(past, s.approvals, Step(s, a).threads[i])
  {
    OthersStayPut(s, a, i);
    match a
    case Permit(_, _) => ConsentMeant(past, s, a);
    case View(_, _) => ConsentMeant(past, s, a);
    case Commit(_) => CommitMeant(past, s, i);
    case Acknowledge(_) => AcknowledgeMeant(past, s, i);
    case _ => RestMeant(past, s, a);
  }

  lemma StepMeant(past: seq<Action>, s: State, a: Action)
    requires AllMeant(past, s) && Enabled(s, a)
    ensures AllMeant(past + [a], Step(s, a))
  {
    hide Step, Enabled, Meant;
    var t := Step(s, a);
    assert forall b :: b in past + [a] <==> b in past || b == a;
    OthersStayPut(s, a, 0);
    if a.InsertGrant? {
      GrantMeant(past, s, a.thread);
    } else {
      forall i | 0 <= i < |t.threads| ensures Meant(past, t.approvals, t.threads[i]) || i == |s.threads| {
        if i < |s.threads| {
          OthersStayPut(s, a, i);
          assert Meant(past, s.approvals, s.threads[i]);
          if Touches(s, a, i) { MovedMeant(past, s, a, i); }
        }
      }
    }
    forall i | 0 <= i < |t.threads| ensures Meant(past + [a], t.approvals, t.threads[i]) {
      if i < |s.threads| { SaidStays(past, a, t.approvals, t.threads[i]); } else { StartMeant(past, s, a); }
    }
  }

  lemma {:induction false} RunMeant(past: seq<Action>, s: State, actions: seq<Action>, t: State)
    requires AllMeant(past, s) && Run(s, actions, t)
    ensures AllMeant(past + actions, t)
    decreases |actions|
  {
    hide AllMeant, Step, Enabled;
    if actions == [] {
      assert past + actions == past;
    } else {
      assert past + actions == past + [actions[0]] + actions[1..];
      StepMeant(past, s, actions[0]);
      RunMeant(past + [actions[0]], Step(s, actions[0]), actions[1..], t);
    }
  }

  /** In every run, each approval was given by the very subject of its grant, who opened the consent of that request and
      said yes. */
  lemma {:induction false} ApprovalsWereGiven(s: State, actions: seq<Action>, t: State, id: nat)
    requires Initial(s) && Run(s, actions, t) && id in t.approvals
    ensures OpenConsent(t.approvals[id].request, t.approvals[id].subject, Some(true)) in actions
  {
    RunMeant([], s, actions, t);
    assert [] + actions == actions;
  }

  // ---- A call that did not say yes ----

  /** A call of consent that has not been told yes, or has ended without a code. */
  predicate SaysNo(t: Thread) {
    match t
    case Consenting(_, _, decision, _) => decision != Some(true)
    case Asking(_, _, decision, _, _, _, _) => decision != Some(true)
    case Consented(_, _, decision, _) => decision != Some(true)
    case Ended(outcome) => !outcome.Redirected?
    case _ => false
  }

  lemma ConsentSaysNo(s: State, a: Action)
    requires Enabled(s, a) && (a.Permit? || a.View?) && SaysNo(s.threads[a.thread])
    ensures SaysNo(Step(s, a).threads[a.thread])
  {
  }

  lemma AskSaysNo(s: State, a: Action)
    requires Enabled(s, a) && (a.Commit? || a.Acknowledge?) && SaysNo(s.threads[a.thread])
    ensures SaysNo(Step(s, a).threads[a.thread])
  {
  }

  lemma StepSaysNo(s: State, a: Action, i: nat)
    requires Enabled(s, a) && i < |s.threads| && SaysNo(s.threads[i])
    ensures i < |Step(s, a).threads| && SaysNo(Step(s, a).threads[i])
  {
    OthersStayPut(s, a, i);
    if Touches(s, a, i) {
      if a.Permit? || a.View? { ConsentSaysNo(s, a); } else { AskSaysNo(s, a); }
    }
  }

  /** A call opened with any other decision never goes on to grant, whatever runs beside it. */
  lemma {:induction false} OnlyYesGrants(s: State, actions: seq<Action>, t: State, i: nat)
    requires Run(s, actions, t) && i < |s.threads| && SaysNo(s.threads[i])
    ensures i < |t.threads| && SaysNo(t.threads[i])
    ensures !t.threads[i].Granting? && !t.threads[i].Coding?
    ensures t.threads[i].Ended? ==> !t.threads[i].outcome.Redirected?
    decreases |actions|
  {
    hide Step, Enabled;
    if actions != [] {
      StepSaysNo(s, actions[0], i);
      OnlyYesGrants(Step(s, actions[0]), actions[1..], t, i);
    }
  }

  lemma {:induction false} RefusalIsFinal(s: State, request: Hash, actor: string, decision: Option<bool>,
      actions: seq<Action>, t: State)
    requires decision != Some(true) && Run(Step(s, OpenConsent(request, actor, decision)), actions, t)
    ensures |s.threads| < |t.threads| && !t.threads[|s.threads|].Granting? && !t.threads[|s.threads|].Coding?
    ensures t.threads[|s.threads|].Ended? ==> !t.threads[|s.threads|].outcome.Redirected?
  {
    OnlyYesGrants(Step(s, OpenConsent(request, actor, decision)), actions, t, |s.threads|);
  }

  /** An acknowledged decision, in time, does what it says: yes grants what was asked for, and no is reported. */
  lemma DecisionsCount(s: State, i: nat)
    requires Enabled(s, Acknowledge(i)) && s.threads[i].Asking? && s.threads[i].purpose.Decide?
    requires s.threads[i].change.expiresAt > s.now
    ensures var c := s.threads[i]; var after := Step(s, Acknowledge(i)).threads[i];
            if c.decision == Some(true) then after == Granting(c.request, c.actor, c.change.value)
            else after == Ended(Denied)
  {
  }
}
