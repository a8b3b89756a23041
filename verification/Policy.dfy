/** Policy evaluation: conditions are checked for size once, then evaluated in full, and rules and policies are combined
    with denial over permission and any error over both. Predicates, relations and policies answer through `World`. */
module Policy {
  import opened Basics

  datatype Scope = Scope(kind: string, id: string)
  datatype Resource = Resource(kind: string, id: string, scope: Scope)

  datatype Value = Null | Bool(truth: bool) | Number(n: int) | Text(s: string) | Object(which: nat)
  datatype Source = OfPrincipal | OfResource | OfContext | OtherSource
  datatype Operator = Equals(value: Value) | Among(values: seq<Value>) | OtherOperator

  datatype Condition =
    | All(conditions: seq<Condition>)
    | Any(conditions: seq<Condition>)
    | Predicate(test: Option<nat>)
    | Attribute(source: Source, key: string, operator: Operator)
    | Relation(relation: string, target: Option<Resource>)
    | OtherKind

  datatype Verdict = Yes | No | Error

  /** The request under evaluation and everything that answers for the outside. */
  datatype World = World(action: string, resource: Resource, hasPrincipal: bool, hasResolver: bool,
                         facts: Source -> Option<map<string, Value>>, test: nat -> Verdict,
                         relation: (string, Resource) -> Verdict)

  // ---- Compiling ----

  const MAX_DEPTH := 32
  const MAX_NODES := 1024

  predicate Identifier(s: string) {
    0 < |s| <= 256
  }

  predicate ValidResource(r: Resource) {
    Identifier(r.kind) && Identifier(r.id) && Identifier(r.scope.kind) && Identifier(r.scope.id)
  }

  predicate LeafOk(c: Condition)
    requires !c.All? && !c.Any?
  {
    match c
    case Predicate(test) => test.Some?
    case Attribute(source, key, operator) =>
      && !source.OtherSource? && Identifier(key)
      && (match operator
          case Equals(value) => !value.Object?
          case Among(values) => values != [] && forall v | v in values :: !v.Object?
          case OtherOperator => false)
    case Relation(relation, target) => Identifier(relation) && (target.Some? ==> ValidResource(target.value))
    case OtherKind => false
  }

  /** Every leaf is proper and no list of conditions is empty. */
  ghost predicate WellFormed(c: Condition) {
    if c.All? || c.Any? then c.conditions != [] && forall i | 0 <= i < |c.conditions| :: WellFormed(c.conditions[i])
    else LeafOk(c)
  }

  /** No path down the condition is longer than `depth`. */
  ghost predicate Within(c: Condition, depth: int)
  {
    0 <= depth && (c.All? || c.Any? ==> forall i | 0 <= i < |c.conditions| :: Within(c.conditions[i], depth - 1))
  }

  ghost predicate Fits(c: Condition, depth: int) {
    WellFormed(c) && Within(c, depth)
  }

  lemma PartsFit(c: Condition, depth: int)
    requires (c.All? || c.Any?) && 0 <= depth
    ensures Fits(c, depth) <==> c.conditions != [] && forall i | 0 <= i < |c.conditions| ::
            Fits(c.conditions[i], depth - 1)
  {
  }

  /** The leaves that are accepted, field by field. */
  lemma LeavesFit(c: Condition, depth: nat)
    ensures c.Attribute? ==>
              (Fits(c, depth) <==>
                 && c.source != OtherSource && 1 <= |c.key| <= 256
                 && (c.operator.Equals? || c.operator.Among?)
                 && (c.operator.Equals? ==> !c.operator.value.Object?)
                 && (c.operator.Among? ==> c.operator.values != [] && forall v | v in c.operator.values :: !v.Object?))
    ensures c.Relation? ==>
              (Fits(c, depth) <==>
                 && 1 <= |c.relation| <= 256
                 && (c.target.Some? ==>
                       && 1 <= |c.target.value.kind| <= 256 && 1 <= |c.target.value.id| <= 256
                       && 1 <= |c.target.value.scope.kind| <= 256 && 1 <= |c.target.value.scope.id| <= 256))
    ensures c.Predicate? ==> (Fits(c, depth) <==> c.test.Some?)
    ensures c.OtherKind? ==> !Fits(c, depth)
  {
  }

  ghost function Nodes(c: Condition): (n: nat)
    ensures n >= 1
  {
    if c.All? || c.Any? then 1 + NodesOf(c.conditions) else 1
  }

  ghost function NodesOf(list: seq<Condition>): nat {
    if list == [] then 0 else NodesOf(list[..|list| - 1]) + Nodes(list[|list| - 1])
  }

  /** Every condition counts once, however deep it stands, and none may stand below the depth allowed. */
  lemma {:induction false} SizeMeans(c: Condition, list: seq<Condition>, depth: int)
    ensures !c.All? && !c.Any? ==> Nodes(c) == 1
    ensures Nodes(All([])) == Nodes(Any([])) == 1
    ensures Nodes(All(list + [c])) == Nodes(All(list)) + Nodes(c)
            && Nodes(Any(list + [c])) == Nodes(Any(list)) + Nodes(c)
    ensures depth < 0 ==> !Fits(c, depth)
  {
    assert (list + [c])[..|list|] == list;
  }

  lemma {:induction false} NodesOfPrefix(list: seq<Condition>, k: nat)
    requires k <= |list|
    ensures NodesOf(list[..k]) <= NodesOf(list)
    decreases |list| - k
  {
    if k < |list| {
      NodesOfPrefix(list, k + 1);
      assert list[..k + 1][..k] == list[..k];
    } else {
      assert list[..k] == list;
    }
  }

  lemma {:induction false} NodesOfNext(list: seq<Condition>, i: nat)
    requires i < |list|
    ensures NodesOf(list[..i + 1]) == NodesOf(list[..i]) + Nodes(list[i]) <= NodesOf(list)
  {
    assert list[..i + 1][..i] == list[..i];
    NodesOfPrefix(list, i + 1);
  }

  class Budget {
    var nodes: nat

    constructor ()
      ensures nodes == 0
    {
      nodes := 0;
    }
  }

  /** Copies a condition that is well formed, at most 32 levels deep and of at most 1024 nodes, and refuses any
      other. */
  method Compile(c: Condition, depth: nat, budget: Budget) returns (compiled: Option<Condition>)
    modifies budget
    ensures compiled.Some? <==> Fits(c, MAX_DEPTH - depth) && old(budget.nodes) + Nodes(c) <= MAX_NODES
    ensures compiled.Some? ==> compiled.value == c && budget.nodes == old(budget.nodes) + Nodes(c)
    ensures depth == 0 && old(budget.nodes) == 0 ==> (compiled.Some? <==> Fits(c, 32) && Nodes(c) <= 1024)
    decreases c, 1
  {
    if depth > MAX_DEPTH { return None; }
    budget.nodes := budget.nodes + 1;
    if budget.nodes > MAX_NODES { return None; }
    if !c.All? && !c.Any? {
      return if LeafOk(c) then Some(c) else None;
    }
    PartsFit(c, MAX_DEPTH - depth);
    if c.conditions == [] { return None; }
    var copies := CompileParts(c, depth, budget);
    if copies.None? { return None; }
    compiled := Some(if c.All? then All(copies.value) else Any(copies.value));
  }

  method CompileParts(c: Condition, depth: nat, budget: Budget) returns (copies: Option<seq<Condition>>)
    requires (c.All? || c.Any?) && budget.nodes <= MAX_NODES
    modifies budget
    ensures copies.Some? <==>
              && (forall i | 0 <= i < |c.conditions| :: Fits(c.conditions[i], MAX_DEPTH - depth - 1))
              && old(budget.nodes) + NodesOf(c.conditions) <= MAX_NODES
    ensures copies.Some? ==> copies.value == c.conditions && budget.nodes == old(budget.nodes) + NodesOf(c.conditions)
    decreases c, 0
  {
    var list: seq<Condition> := [];
    var i := 0;
    while i < |c.conditions|
      invariant 0 <= i <= |c.conditions| && list == c.conditions[..i]
      invariant budget.nodes == old(budget.nodes) + NodesOf(c.conditions[..i]) <= MAX_NODES
      invariant forall k | 0 <= k < i :: Fits(c.conditions[k], MAX_DEPTH - depth - 1)
    {
      NodesOfNext(c.conditions, i);
      var child := Compile(c.conditions[i], depth + 1, budget);
      if child.None? { return None; }
      list := list + [child.value];
      i := i + 1;
    }
    assert c.conditions[..i] == c.conditions;
    copies := Some(list);
  }

  // ---- Evaluating a condition ----

  function LeafVerdict(c: Condition, w: World): Verdict
    requires !c.All? && !c.Any?
  {
    match c
    case Predicate(test) => if test.Some? then w.test(test.value) else Error
    case Attribute(source, key, operator) =>
      var facts := w.facts(source);
      if facts.None? || key !in facts.value then No
      else (match operator
            case Equals(value) => if facts.value[key] == value then Yes else No
            case Among(values) => if facts.value[key] in values then Yes else No
            case OtherOperator => Error)
    case Relation(relation, target) =>
      if !w.hasPrincipal then No
      else if !w.hasResolver then Error
      else w.relation(relation, if target.Some? then target.value else w.resource)
    case OtherKind => Error
  }

  /** What the parts of a condition say. */
  ghost function Parts(c: Condition, w: World): set<Verdict>
    requires c.All? || c.Any?
    decreases c, 0
  {
    set i | 0 <= i < |c.conditions| :: Meaning(c.conditions[i], w)
  }

  /** The meaning of a condition: an error anywhere below is an error; otherwise all or any of the parts. */
  ghost function Meaning(c: Condition, w: World): Verdict
    decreases c, 1
  {
    if !c.All? && !c.Any? then LeafVerdict(c, w)
    else if Error in Parts(c, w) then Error
    else if c.All? then if No in Parts(c, w) then No else Yes
    else if Yes in Parts(c, w) then Yes else No
  }

  /** Evaluates every part in turn, with no short cut. */
  method Matches(c: Condition, w: World) returns (verdict: Verdict)
    ensures verdict == Meaning(c, w)
    decreases c
  {
    if !c.All? && !c.Any? { return LeafVerdict(c, w); }
    var every, some := true, false;
    ghost var said: set<Verdict> := {};
    var i := 0;
    while i < |c.conditions|
      invariant 0 <= i <= |c.conditions| && said == set k | 0 <= k < i :: Meaning(c.conditions[k], w)
      invariant Error !in said && (every <==> No !in said) && (some <==> Yes in said)
    {
      var part := Matches(c.conditions[i], w);
      said := said + {part};
      if part.Error? {
        assert Meaning(c.conditions[i], w) in Parts(c, w);
        return Error;
      }
      if part.Yes? { some := true; } else { every := false; }
      i := i + 1;
    }
    assert said == Parts(c, w);
    verdict := if (if c.All? then every else some) then Yes else No;
  }

  /** An `all` holds when each of its parts does, an `any` when some part does; a part that fails makes either fail. */
  lemma {:induction false} PartsMean(c: Condition, w: World)
    requires c.All? || c.Any?
    ensures Meaning(c, w) == Error <==> exists i :: 0 <= i < |c.conditions| && Meaning(c.conditions[i], w) == Error
    ensures c.All? ==>
              (Meaning(c, w) == Yes <==> forall i | 0 <= i < |c.conditions| :: Meaning(c.conditions[i], w) == Yes)
    ensures c.Any? ==>
              (Meaning(c, w) == Yes <==>
                 && (forall i | 0 <= i < |c.conditions| :: Meaning(c.conditions[i], w) != Error)
                 && exists i :: 0 <= i < |c.conditions| && Meaning(c.conditions[i], w) == Yes)
  {
    forall i | 0 <= i < |c.conditions| ensures Meaning(c.conditions[i], w) in Parts(c, w) {
    }
    forall v | v in Parts(c, w) ensures exists i :: 0 <= i < |c.conditions| && Meaning(c.conditions[i], w) == v {
    }
  }

  /** An attribute condition holds when its source has the key, with the value or one of the values it names. */
  lemma {:induction false} AttributeMeans(source: Source, key: string, operator: Operator, w: World)
    requires !operator.OtherOperator?
    ensures Meaning(Attribute(source, key, operator), w) == Yes <==>
              && w.facts(source).Some? && key in w.facts(source).value
              && var fact := w.facts(source).value[key];
                 if operator.Equals? then fact == operator.value
                 else exists i :: 0 <= i < |operator.values| && operator.values[i] == fact
    ensures Meaning(Attribute(source, key, operator), w) != Error
  {
  }

  /** A predicate says what its function says. */
  lemma {:induction false} PredicateMeans(test: nat, w: World)
    ensures Meaning(Predicate(Some(test)), w) == w.test(test)
  {
  }

  /** A relation is asked of the resolver, about the resource of the request unless the condition names another; without
      a principal it does not hold, and without a resolver it fails. */
  lemma {:induction false} RelationMeans(relation: string, target: Option<Resource>, w: World)
    ensures w.hasPrincipal && w.hasResolver && target.Some? ==>
              Meaning(Relation(relation, target), w) == w.relation(relation, target.value)
    ensures w.hasPrincipal && w.hasResolver && target.None? ==>
              Meaning(Relation(relation, target), w) == w.relation(relation, w.resource)
    ensures !w.hasPrincipal ==> Meaning(Relation(relation, target), w) == No
    ensures w.hasPrincipal && !w.hasResolver ==> Meaning(Relation(relation, target), w) == Error
  {
  }

  /** The same condition up to the order and repetition of parts, at every level. */
  ghost predicate Rearranged(a: Condition, b: Condition)
    decreases a, 1
  {
    if (a.All? && b.All?) || (a.Any? && b.Any?) then
      && (forall i | 0 <= i < |a.conditions| :: HasMate(a.conditions[i], b))
      && (forall j | 0 <= j < |b.conditions| :: IsMate(a, b.conditions[j]))
    else a == b
  }

  ghost predicate HasMate(part: Condition, b: Condition)
    requires b.All? || b.Any?
    decreases part, 2
  {
    exists j :: 0 <= j < |b.conditions| && Rearranged(part, b.conditions[j])
  }

  ghost predicate IsMate(a: Condition, part: Condition)
    requires a.All? || a.Any?
    decreases a, 0
  {
    exists i :: 0 <= i < |a.conditions| && Rearranged(a.conditions[i], part)
  }

  lemma {:induction false} PartsAlike(a: Condition, b: Condition, w: World)
    requires (a.All? && b.All?) || (a.Any? && b.Any?)
    requires Rearranged(a, b)
    requires forall i, j | 0 <= i < |a.conditions| && 0 <= j < |b.conditions|
             && Rearranged(a.conditions[i], b.conditions[j]) ::
               Meaning(a.conditions[i], w) == Meaning(b.conditions[j], w)
    ensures Parts(a, w) == Parts(b, w)
  {
    forall v | v in Parts(a, w) ensures v in Parts(b, w) {
      var i :| 0 <= i < |a.conditions| && v == Meaning(a.conditions[i], w);
      assert HasMate(a.conditions[i], b);
    }
    forall v | v in Parts(b, w) ensures v in Parts(a, w) {
      var j :| 0 <= j < |b.conditions| && v == Meaning(b.conditions[j], w);
      assert IsMate(a, b.conditions[j]);
    }
  }

  lemma {:induction false} RearrangedAlike(a: Condition, b: Condition, w: World)
    requires Rearranged(a, b)
    ensures Meaning(a, w) == Meaning(b, w)
    decreases a
  {
    if (a.All? && b.All?) || (a.Any? && b.Any?) {
      forall i, j | 0 <= i < |a.conditions| && 0 <= j < |b.conditions| && Rearranged(a.conditions[i], b.conditions[j])
        ensures Meaning(a.conditions[i], w) == Meaning(b.conditions[j], w)
      {
        RearrangedAlike(a.conditions[i], b.conditions[j], w);
      }
      PartsAlike(a, b, w);
    }
  }

  lemma {:induction false} ItselfRearranged(c: Condition)
    ensures Rearranged(c, c)
    decreases c
  {
    if c.All? || c.Any? {
      forall i | 0 <= i < |c.conditions| ensures HasMate(c.conditions[i], c) && IsMate(c, c.conditions[i]) {
        ItselfRearranged(c.conditions[i]);
      }
    }
  }

  /** Exchanging any two parts is such a rearrangement, so a permutation is one too. */
  lemma {:induction false} ExchangeRearranges(a: Condition, b: Condition, i: nat, j: nat)
    requires (a.All? && b.All?) || (a.Any? && b.Any?)
    requires i < |a.conditions| && j < |a.conditions|
    requires b.conditions == a.conditions[i := a.conditions[j]][j := a.conditions[i]]
    ensures Rearranged(a, b)
  {
    forall k | 0 <= k < |a.conditions| ensures HasMate(a.conditions[k], b) {
      ItselfRearranged(a.conditions[k]);
      assert b.conditions[if k == i then j else if k == j then i else k] == a.conditions[k];
    }
    forall k | 0 <= k < |b.conditions| ensures IsMate(a, b.conditions[k]) {
      ItselfRearranged(b.conditions[k]);
      assert a.conditions[if k == i then j else if k == j then i else k] == b.conditions[k];
    }
  }

  // ---- Combining rules and policies ----

  datatype Effect = Allow | Deny
  datatype Rule = Rule(effect: Effect, resourceType: string, actions: seq<string>, scope: Option<Scope>,
                       resourceId: Option<string>, when: Condition)
  datatype PolicyResult = Allows | Denies | Abstains | Fails

  datatype Code = ALLOWED | EXPLICIT_DENY | DEFAULT_DENY | EVALUATION_FAILED

  predicate Applies(r: Rule, w: World) {
    && w.action in r.actions && r.resourceType == w.resource.kind
    && (r.scope.Some? ==> r.scope.value == w.resource.scope)
    && (r.resourceId.Some? ==> r.resourceId.value == w.resource.id)
  }

  ghost function RuleVerdict(r: Rule, w: World): Verdict {
    if Applies(r, w) then Meaning(r.when, w) else No
  }

  /** What the rules of one effect say. */
  ghost function Says(rules: seq<Rule>, w: World, effect: Effect): set<Verdict> {
    set r | r in rules && r.effect == effect :: RuleVerdict(r, w)
  }

  ghost predicate Fires(rules: seq<Rule>, w: World, effect: Effect) {
    Yes in Says(rules, w, effect)
  }

  ghost predicate Breaks(rules: seq<Rule>, results: seq<PolicyResult>, w: World) {
    Error in Says(rules, w, Deny) || Error in Says(rules, w, Allow) || Fails in results
  }

  /** The decision, from what the rules and policies say and not from where they stand. */
  ghost function Decided(rules: seq<Rule>, results: seq<PolicyResult>, w: World): Code {
    if Breaks(rules, results, w) then EVALUATION_FAILED
    else if Fires(rules, w, Deny) || Denies in results then EXPLICIT_DENY
    else if Fires(rules, w, Allow) || Allows in results then ALLOWED
    else DEFAULT_DENY
  }

  /** The combining loops. Every applicable rule and every policy is consulted unless one fails. */
  method Combine(rules: seq<Rule>, results: seq<PolicyResult>, w: World) returns (code: Code)
    ensures code == Decided(rules, results, w)
  {
    var allowed, denied := false, false;
    var i := 0;
    while i < |rules|
      invariant 0 <= i <= |rules|
      invariant Error !in Says(rules[..i], w, Deny) && Error !in Says(rules[..i], w, Allow)
      invariant denied <==> Fires(rules[..i], w, Deny)
      invariant allowed <==> Fires(rules[..i], w, Allow)
    {
      var rule := rules[i];
      SaysMore(rules, i, w, Deny);
      SaysMore(rules, i, w, Allow);
      if Applies(rule, w) {
        var matched := Matches(rule.when, w);
        if matched.Error? {
          assert rule in rules && RuleVerdict(rule, w) in Says(rules, w, rule.effect);
          return EVALUATION_FAILED;
        }
        if matched.Yes? {
          if rule.effect == Deny { denied := true; } else { allowed := true; }
        }
      }
      i := i + 1;
    }
    assert rules[..i] == rules;
    i := 0;
    while i < |results|
      invariant 0 <= i <= |results| && Fails !in results[..i]
      invariant denied <==> Fires(rules, w, Deny) || Denies in results[..i]
      invariant allowed <==> Fires(rules, w, Allow) || Allows in results[..i]
    {
      assert results[..i + 1] == results[..i] + [results[i]];
      if results[i] == Fails { return EVALUATION_FAILED; }
      if results[i] == Denies { denied := true; }
      if results[i] == Allows { allowed := true; }
      i := i + 1;
    }
    assert results[..i] == results;
    code := if denied then EXPLICIT_DENY else if allowed then ALLOWED else DEFAULT_DENY;
  }

  lemma SaysMore(rules: seq<Rule>, i: nat, w: World, effect: Effect)
    requires i < |rules|
    ensures Says(rules[..i + 1], w, effect) ==
              Says(rules[..i], w, effect) + if rules[i].effect == effect then {RuleVerdict(rules[i], w)} else {}
  {
    assert rules[..i + 1] == rules[..i] + [rules[i]];
    forall r ensures r in rules[..i + 1] <==> r in rules[..i] || r == rules[i] {
    }
  }

  /** Rules that differ at most in the arrangement of their conditions. */
  ghost predicate SameRule(a: Rule, b: Rule) {
    a.(when := b.when) == b && Rearranged(a.when, b.when)
  }

  ghost predicate Mirrored(rules: seq<Rule>, others: seq<Rule>) {
    forall r | r in rules :: exists q :: q in others && SameRule(r, q)
  }

  lemma MirroredSays(rules: seq<Rule>, others: seq<Rule>, w: World, effect: Effect)
    requires Mirrored(rules, others)
    ensures Says(rules, w, effect) <= Says(others, w, effect)
  {
    forall v | v in Says(rules, w, effect) ensures v in Says(others, w, effect) {
      var r :| r in rules && r.effect == effect && v == RuleVerdict(r, w);
      var q :| q in others && SameRule(r, q);
      RearrangedAlike(r.when, q.when, w);
      assert RuleVerdict(q, w) == v;
    }
  }

  /** Order, repetition and arrangement of rules and policies never change the decision. */
  lemma OrderNeverMatters(rules: seq<Rule>, others: seq<Rule>, results: seq<PolicyResult>, more: seq<PolicyResult>,
      w: World)
    requires Mirrored(rules, others) && Mirrored(others, rules) && forall x :: x in results <==> x in more
    ensures Decided(rules, results, w) == Decided(others, more, w)
  {
    MirroredSays(rules, others, w, Deny);
    MirroredSays(rules, others, w, Allow);
    MirroredSays(others, rules, w, Deny);
    MirroredSays(others, rules, w, Allow);
    assert Says(rules, w, Deny) == Says(others, w, Deny) && Says(rules, w, Allow) == Says(others, w, Allow);
  }

  /** Some rule of an effect is for this request and its condition comes to the verdict. */
  ghost predicate SomeSays(rules: seq<Rule>, w: World, effect: Effect, verdict: Verdict) {
    exists r :: r in rules && r.effect == effect && Applies(r, w) && Meaning(r.when, w) == verdict
  }

  lemma SaysSome(rules: seq<Rule>, w: World, effect: Effect, verdict: Verdict)
    requires verdict != No
    ensures verdict in Says(rules, w, effect) <==> SomeSays(rules, w, effect, verdict)
  {
    if SomeSays(rules, w, effect, verdict) {
      var r :| r in rules && r.effect == effect && Applies(r, w) && Meaning(r.when, w) == verdict;
      assert RuleVerdict(r, w) == verdict;
    }
  }

  /** Access is given exactly when an allowing rule of this request holds or a policy allows it, the condition of every
      denying rule of this request is plainly false, no other condition fails, and no policy denies or fails. */
  lemma {:induction false} AllowedMeans(rules: seq<Rule>, results: seq<PolicyResult>, w: World)
    ensures Decided(rules, results, w) == ALLOWED <==>
              && (SomeSays(rules, w, Allow, Yes) || Allows in results)
              && (forall r | r in rules && Applies(r, w) ::
                    Meaning(r.when, w) == No || (r.effect == Allow && Meaning(r.when, w) == Yes))
              && Denies !in results && Fails !in results
  {
    SaysSome(rules, w, Allow, Yes);
    SaysSome(rules, w, Deny, Yes);
    SaysSome(rules, w, Allow, Error);
    SaysSome(rules, w, Deny, Error);
  }

  /** A failure of any part that was consulted is never hidden by what the others say. */
  lemma {:induction false} FailureMeans(rules: seq<Rule>, results: seq<PolicyResult>, w: World)
    ensures Decided(rules, results, w) == EVALUATION_FAILED <==>
              Fails in results || exists r :: r in rules && Applies(r, w) && Meaning(r.when, w) == Error
  {
    SaysSome(rules, w, Allow, Error);
    SaysSome(rules, w, Deny, Error);
  }

  /** The rule is for this action and kind of resource, and for this scope and resource if it names them. */
  predicate For(r: Rule, w: World) {
    && r.resourceType == w.resource.kind && (exists i :: 0 <= i < |r.actions| && r.actions[i] == w.action)
    && (r.scope == None || r.scope == Some(w.resource.scope))
          && (r.resourceId == None || r.resourceId == Some(w.resource.id))
  }

  /** Rules for other requests have no say, wherever they stand. */
  lemma OtherRulesDoNotCount(before: seq<Rule>, r: Rule, after: seq<Rule>, results: seq<PolicyResult>, w: World)
    requires !For(r, w)
    ensures Decided(before + [r] + after, results, w) == Decided(before + after, results, w)
  {
    assert !Applies(r, w);
    forall effect, verdict | verdict != No
      ensures SomeSays(before + [r] + after, w, effect, verdict) <==> SomeSays(before + after, w, effect, verdict)
    {
      assert forall q | q != r :: q in before + [r] + after <==> q in before + after;
    }
    forall effect, verdict | verdict != No
      ensures verdict in Says(before + [r] + after, w, effect) <==> verdict in Says(before + after, w, effect)
    {
      SaysSome(before + [r] + after, w, effect, verdict);
      SaysSome(before + after, w, effect, verdict);
    }
  }

  /** A rule for this request whose condition holds counts: a denial is never overcome, and an allowance alone is
      enough. */
  lemma {:induction false} RulesForTheRequestCount(rules: seq<Rule>, r: Rule, results: seq<PolicyResult>, w: World)
    requires r in rules && For(r, w) && Meaning(r.when, w) == Yes
    ensures r.effect == Deny ==>
              Decided(rules, results, w) == EXPLICIT_DENY || Decided(rules, results, w) == EVALUATION_FAILED
    ensures r.effect == Allow && rules == [r] && results == [] ==> Decided(rules, results, w) == ALLOWED
  {
    assert Applies(r, w) && RuleVerdict(r, w) == Yes;
  }

  /** Extra denials never give access. */
  lemma DenialsOnlyRestrict(rules: seq<Rule>, extra: seq<Rule>, results: seq<PolicyResult>, w: World)
    requires forall r | r in extra :: r.effect == Deny
    requires Decided(rules + extra, results, w) == ALLOWED
    ensures Decided(rules, results, w) == ALLOWED
  {
    assert forall r :: r in rules + extra <==> r in rules || r in extra;
    assert Says(rules + extra, w, Allow) == Says(rules, w, Allow);
    assert Says(rules, w, Deny) <= Says(rules + extra, w, Deny);
  }
}
