/** Policy definitions: checking a bundle, matching it against a context, and the strictest-first order. */
module PolicyEngine {
  import opened Options
  import Text

  datatype Decision = Allow | Conditional | Deny

  function Rank(d: Decision): (r: int)
    ensures 0 <= r <= 2
  {
    match d
    case Allow => 0
    case Conditional => 1
    case Deny => 2
  }

  datatype Scalar = Null | Words(text: string) | Whole(n: int)

  datatype Value = One(scalar: Scalar) | Many(scalars: seq<Scalar>)

  datatype Condition = Condition(field: string, expected: Value)

  /** A definition whose fields have passed the checks, with the defaults filled in. */
  datatype Policy = Policy(
    id: string, decision: Decision, conditions: seq<Condition>, risk: int, controls: seq<string>, reason: string, version: string)

  datatype PolicyMatch = PolicyMatch(id: string, version: string, decision: Decision, risk: int, reason: string, controls: seq<string>)

  // ---------------------------------------------------------------- checking definitions

  /** A field of a definition as it was written: absent, of the wrong type, or given. */
  datatype Field<T> = Absent | Wrong | Given(value: T)

  datatype Raw =
    | NotAnObject
    | Raw(id: Field<string>, decision: Field<string>, conditions: Field<seq<Condition>>, risk: Field<int>,
          controls: Field<seq<string>>, reason: Option<string>, description: Option<string>, version: Option<string>)

  datatype Fault =
    | EmptyBundle
    | NotObject
    | BadId
    | DuplicateId(id: string)
    | BadDecision(id: string)
    | BadMatch(id: string)
    | BadRisk(id: string)
    | BadControls(id: string)

  predicate HasId(raw: Raw) {
    raw.Raw? && raw.id.Given? && (exists i :: 0 <= i < |raw.id.value| && !Text.IsSpace(raw.id.value[i])) && |raw.id.value| <= 160
  }

  predicate HasDecision(raw: Raw)
    requires raw.Raw?
  {
    raw.decision.Given? && raw.decision.value in {"allow", "conditional", "deny"}
  }

  predicate HasRisk(raw: Raw)
    requires raw.Raw?
  {
    raw.risk.Absent? || (raw.risk.Given? && 0 <= raw.risk.value <= 100)
  }

  /** The checks on one definition, apart from its id being new. */
  predicate Acceptable(raw: Raw) {
    HasId(raw) && HasDecision(raw) && !raw.conditions.Wrong? && HasRisk(raw) && !raw.controls.Wrong?
  }

  ghost predicate DistinctIds(raws: seq<Raw>) {
    forall i, j :: 0 <= i < j < |raws| && HasId(raws[i]) && HasId(raws[j]) ==> raws[i].id.value != raws[j].id.value
  }

  ghost predicate ValidBundle(raws: seq<Raw>) {
    raws != [] && (forall i :: 0 <= i < |raws| ==> Acceptable(raws[i])) && DistinctIds(raws)
  }

  /** The k-th definition has the id, and no earlier one does. */
  ghost predicate NewId(raws: seq<Raw>, k: nat, id: string) {
    && k < |raws| && HasId(raws[k]) && raws[k].id.value == id
    && forall i :: 0 <= i < k && HasId(raws[i]) ==> raws[i].id.value != id
  }

  /** What is wrong with the k-th definition, and nothing that is looked at before. */
  ghost predicate Blames(raws: seq<Raw>, k: nat, fault: Fault) {
    && k < |raws|
    && match fault
       case EmptyBundle => false
       case NotObject => raws[k].NotAnObject?
       case BadId => raws[k].Raw? && !HasId(raws[k])
       case DuplicateId(id) => HasId(raws[k]) && raws[k].id.value == id && exists i :: 0 <= i < k && HasId(raws[i]) && raws[i].id.value == id
       case BadDecision(id) => NewId(raws, k, id) && !HasDecision(raws[k])
       case BadMatch(id) => NewId(raws, k, id) && HasDecision(raws[k]) && raws[k].conditions.Wrong?
       case BadRisk(id) => NewId(raws, k, id) && HasDecision(raws[k]) && !raws[k].conditions.Wrong? && !HasRisk(raws[k])
       case BadControls(id) =>
         NewId(raws, k, id) && HasDecision(raws[k]) && !raws[k].conditions.Wrong? && HasRisk(raws[k]) && raws[k].controls.Wrong?
  }

  /** The definitions before the k-th have no fault. */
  ghost predicate SoFar(raws: seq<Raw>, k: nat) { k <= |raws| && (k > 0 ==> ValidBundle(raws[..k])) }

  /** validate_policy_definitions: the first fault of the first faulty definition, if there is one. */
  method Validate(raws: seq<Raw>) returns (fault: Option<Fault>)
    ensures fault.None? <==> ValidBundle(raws)
    ensures raws == [] ==> fault == Some(EmptyBundle)
    ensures raws != [] && fault.Some? ==> exists k :: SoFar(raws, k) && Blames(raws, k, fault.value)
  {
    if raws == [] { return Some(EmptyBundle); }
    var identifiers: set<string> := {};
    for k := 0 to |raws|
      invariant forall i :: 0 <= i < k ==> Acceptable(raws[i])
      invariant forall i :: 0 <= i < k ==> raws[i].id.value in identifiers
      invariant forall id :: id in identifiers ==> exists i :: 0 <= i < k && raws[i].id.value == id
      invariant DistinctIds(raws[..k])
    {
      var raw := raws[k];
      assert SoFar(raws, k);
      if raw.NotAnObject? { assert Blames(raws, k, NotObject); return Some(NotObject); }
      if !HasId(raw) { assert Blames(raws, k, BadId); return Some(BadId); }
      var id := raw.id.value;
      if id in identifiers {
        var i :| 0 <= i < k && raws[i].id.value == id;
        assert !DistinctIds(raws) && Blames(raws, k, DuplicateId(id));
        return Some(DuplicateId(id));
      }
      identifiers := identifiers + {id};
      assert NewId(raws, k, id);
      if !HasDecision(raw) { assert Blames(raws, k, BadDecision(id)); return Some(BadDecision(id)); }
      if raw.conditions.Wrong? { assert Blames(raws, k, BadMatch(id)); return Some(BadMatch(id)); }
      if !HasRisk(raw) { assert Blames(raws, k, BadRisk(id)); return Some(BadRisk(id)); }
      if raw.controls.Wrong? { assert Blames(raws, k, BadControls(id)); return Some(BadControls(id)); }
      assert raws[..k + 1] == raws[..k] + [raw];
    }
    assert raws[..|raws|] == raws;
    fault := None;
  }

  function OrElse<T>(f: Field<T>, d: T): T { if f.Given? then f.value else d }

  function DecisionOf(name: string): Decision { if name == "deny" then Deny else if name == "conditional" then Conditional else Allow }

  function Checked(raw: Raw): Policy
    requires Acceptable(raw)
  {
    var id := raw.id.value;
    Policy(id, DecisionOf(raw.decision.value), OrElse(raw.conditions, []), OrElse(raw.risk, 50), OrElse(raw.controls, []),
           if raw.reason.Some? then raw.reason.value else if raw.description.Some? then raw.description.value else id,
           if raw.version.Some? then raw.version.value else "1")
  }

  function CheckedAll(raws: seq<Raw>): (policies: seq<Policy>)
    requires forall i :: 0 <= i < |raws| ==> Acceptable(raws[i])
    ensures |policies| == |raws|
    ensures forall i :: 0 <= i < |raws| ==> policies[i] == Checked(raws[i])
  {
    if raws == [] then [] else CheckedAll(raws[..|raws| - 1]) + [Checked(raws[|raws| - 1])]
  }

  // ---------------------------------------------------------------- matching

  type Context = map<string, Value>

  function Lookup(context: Context, field: string): Value {
    if field in context then context[field] else One(Null)
  }

  function Expected(v: Value): seq<Scalar> { if v.Many? then v.scalars else [v.scalar] }

  /** A listed value matches when it shares an element with what is expected, any other when it is expected. */
  predicate Matches(actual: Value, expected: Value) {
    match actual
    case Many(scalars) => exists s :: s in scalars && s in Expected(expected)
    case One(scalar) => scalar in Expected(expected)
  }

  predicate Applies(p: Policy, context: Context) {
    forall i :: 0 <= i < |p.conditions| ==> Matches(Lookup(context, p.conditions[i].field), p.conditions[i].expected)
  }

  function ToMatch(p: Policy): PolicyMatch { PolicyMatch(p.id, p.version, p.decision, p.risk, p.reason, p.controls) }

  /** The matches of the policies that apply, in the bundle's order. */
  function Matching(policies: seq<Policy>, context: Context): seq<PolicyMatch> {
    if policies == [] then []
    else
      var last := policies[|policies| - 1];
      Matching(policies[..|policies| - 1], context) + (if Applies(last, context) then [ToMatch(last)] else [])
  }

  function OfDecision(matches: seq<PolicyMatch>, d: Decision): seq<PolicyMatch> {
    if matches == [] then []
    else (if matches[0].decision == d then [matches[0]] else []) + OfDecision(matches[1..], d)
  }

  /** sorted by strictness, highest first: a stable sort keeps the bundle's order within a decision. */
  function Strictest(matches: seq<PolicyMatch>): seq<PolicyMatch> {
    OfDecision(matches, Deny) + OfDecision(matches, Conditional) + OfDecision(matches, Allow)
  }

  lemma MatchingStep(policies: seq<Policy>, context: Context, k: nat)
    requires k < |policies|
    ensures Matching(policies[..k + 1], context)
         == Matching(policies[..k], context) + if Applies(policies[k], context) then [ToMatch(policies[k])] else []
  {
    assert policies[..k + 1][..k] == policies[..k];
  }

  /** A bundle has at most one fault to report. */
  lemma OneFault(raws: seq<Raw>, j: nat, f: Fault, k: nat, g: Fault)
    requires SoFar(raws, j) && Blames(raws, j, f) && SoFar(raws, k) && Blames(raws, k, g)
    ensures j == k && f == g
  {
    if j < k {
      FaultyPrefix(raws, j, f, k);
    } else if k < j {
      FaultyPrefix(raws, k, g, j);
    }
  }

  /** A fault makes every longer prefix invalid. */
  lemma FaultyPrefix(raws: seq<Raw>, j: nat, f: Fault, k: nat)
    requires Blames(raws, j, f) && j < k <= |raws|
    ensures !ValidBundle(raws[..k])
  {
    assert raws[..k][j] == raws[j];
    if f.DuplicateId? {
      var i :| 0 <= i < j && HasId(raws[i]) && raws[i].id.value == f.id;
      assert raws[..k][i] == raws[i];
    }
  }

  /** The loop over a bundle without faults. */
  method MatchAll(context: Context, raws: seq<Raw>) returns (matches: seq<PolicyMatch>)
    requires forall i :: 0 <= i < |raws| ==> Acceptable(raws[i])
    ensures matches == Matching(CheckedAll(raws), context)
  {
    matches := [];
    ghost var policies := CheckedAll(raws);
    for k := 0 to |raws|
      invariant matches == Matching(policies[..k], context)
    {
      var p := Checked(raws[k]);
      MatchingStep(policies, context, k);
      if Applies(p, context) { matches := matches + [ToMatch(p)]; }
    }
    assert policies[..|raws|] == policies;
  }

  /** evaluate_policy_definitions: a faulty bundle matches nothing. */
  method EvaluateDefinitions(context: Context, raws: seq<Raw>) returns (fault: Option<Fault>, matches: seq<PolicyMatch>)
    ensures fault.None? <==> ValidBundle(raws)
    ensures fault.None? ==> matches == Strictest(Matching(CheckedAll(raws), context))
    ensures fault.Some? ==> matches == []
  {
    matches := [];
    fault := Validate(raws);
    if fault.Some? { return; }
    matches := MatchAll(context, raws);
    matches := Strictest(matches);
  }

  // ---------------------------------------------------------------- the order of the matches

  lemma {:induction false} OfDecisionMembers(matches: seq<PolicyMatch>, d: Decision, m: PolicyMatch)
    ensures multiset(OfDecision(matches, d))[m] == if m.decision == d then multiset(matches)[m] else 0
  {
    if matches != [] {
      OfDecisionMembers(matches[1..], d, m);
      assert matches == [matches[0]] + matches[1..];
    }
  }

  lemma {:induction false} OfDecisionOnly(matches: seq<PolicyMatch>, d: Decision)
    ensures forall i :: 0 <= i < |OfDecision(matches, d)| ==> OfDecision(matches, d)[i].decision == d
  {
    if matches != [] { OfDecisionOnly(matches[1..], d); }
  }

  lemma {:induction false} OfDecisionJoin(a: seq<PolicyMatch>, b: seq<PolicyMatch>, d: Decision)
    ensures OfDecision(a + b, d) == OfDecision(a, d) + OfDecision(b, d)
  {
    if a == [] {
      assert a + b == b;
    } else {
      OfDecisionJoin(a[1..], b, d);
      assert (a + b)[1..] == a[1..] + b;
    }
  }

  lemma {:induction false} OfDecisionTwice(matches: seq<PolicyMatch>, c: Decision, d: Decision)
    ensures OfDecision(OfDecision(matches, c), d) == if c == d then OfDecision(matches, d) else []
  {
    if matches != [] {
      OfDecisionTwice(matches[1..], c, d);
      OfDecisionJoin(if matches[0].decision == c then [matches[0]] else [], OfDecision(matches[1..], c), d);
    }
  }

  /** A stable strictest-first permutation: same matches, ranks never rise, and each decision keeps its order. */
  ghost predicate StableStrictest(matches: seq<PolicyMatch>, r: seq<PolicyMatch>) {
    && multiset(r) == multiset(matches)
    && (forall i, j :: 0 <= i < j < |r| ==> Rank(r[i].decision) >= Rank(r[j].decision))
    && (forall d: Decision :: OfDecision(r, d) == OfDecision(matches, d))
  }

  lemma StrictestIsPermutation(matches: seq<PolicyMatch>)
    ensures multiset(Strictest(matches)) == multiset(matches)
  {
    forall m ensures multiset(Strictest(matches))[m] == multiset(matches)[m] {
      OfDecisionMembers(matches, Deny, m);
      OfDecisionMembers(matches, Conditional, m);
      OfDecisionMembers(matches, Allow, m);
    }
  }

  lemma PiecesDescend(a: seq<PolicyMatch>, b: seq<PolicyMatch>, c: seq<PolicyMatch>)
    requires forall i :: 0 <= i < |a| ==> a[i].decision == Deny
    requires forall i :: 0 <= i < |b| ==> b[i].decision == Conditional
    requires forall i :: 0 <= i < |c| ==> c[i].decision == Allow
    ensures forall i, j :: 0 <= i < j < |a + b + c| ==> Rank((a + b + c)[i].decision) >= Rank((a + b + c)[j].decision)
  {
    var r := a + b + c;
    forall k | 0 <= k < |r| ensures r[k].decision == if k < |a| then Deny else if k < |a| + |b| then Conditional else Allow {
      if k < |a| { assert r[k] == a[k]; } else if k < |a| + |b| { assert r[k] == b[k - |a|]; } else { assert r[k] == c[k - |a| - |b|]; }
    }
  }

  lemma StrictestKeepsEach(matches: seq<PolicyMatch>, d: Decision)
    ensures OfDecision(Strictest(matches), d) == OfDecision(matches, d)
  {
    var a, b, c := OfDecision(matches, Deny), OfDecision(matches, Conditional), OfDecision(matches, Allow);
    OfDecisionJoin(a + b, c, d);
    OfDecisionJoin(a, b, d);
    OfDecisionTwice(matches, Deny, d);
    OfDecisionTwice(matches, Conditional, d);
    OfDecisionTwice(matches, Allow, d);
  }

  lemma StrictestIsStable(matches: seq<PolicyMatch>)
    ensures StableStrictest(matches, Strictest(matches))
  {
    StrictestIsPermutation(matches);
    OfDecisionOnly(matches, Deny);
    OfDecisionOnly(matches, Conditional);
    OfDecisionOnly(matches, Allow);
    PiecesDescend(OfDecision(matches, Deny), OfDecision(matches, Conditional), OfDecision(matches, Allow));
    forall d: Decision ensures OfDecision(Strictest(matches), d) == OfDecision(matches, d) {
      StrictestKeepsEach(matches, d);
    }
  }

  lemma {:induction false} MatchingMembers(policies: seq<Policy>, context: Context, m: PolicyMatch)
    ensures m in Matching(policies, context) <==> exists p :: p in policies && Applies(p, context) && ToMatch(p) == m
  {
    if policies != [] {
      var front, last := policies[..|policies| - 1], policies[|policies| - 1];
      MatchingMembers(front, context, m);
      assert policies == front + [last];
    }
  }

  /** What matches is what applies, whatever the order of the policies. */
  lemma StrictestMembers(policies: seq<Policy>, context: Context, m: PolicyMatch)
    ensures m in Strictest(Matching(policies, context)) <==> exists p :: p in policies && Applies(p, context) && ToMatch(p) == m
  {
    var matches := Matching(policies, context);
    StrictestIsStable(matches);
    MatchingMembers(policies, context, m);
    assert m in Strictest(matches) <==> m in multiset(Strictest(matches));
    assert m in matches <==> m in multiset(matches);
  }

  // ---------------------------------------------------------------- matches by what is written

  /** An acceptable definition: an id that is not blank, of at most 160 characters, one of the three decisions, and a risk from 0 to 100 if any. */
  lemma AcceptableExactlyWhen(raw: Raw)
    ensures Acceptable(raw) <==>
      && raw.Raw? && raw.id.Given? && |raw.id.value| <= 160 && !(forall c :: c in raw.id.value ==> Text.IsSpace(c))
      && raw.decision in {Given("allow"), Given("conditional"), Given("deny")}
      && (raw.risk != Absent ==> raw.risk.Given? && 0 <= raw.risk.value && raw.risk.value <= 100)
      && raw.conditions != Wrong && raw.controls != Wrong
  {
    if raw.Raw? && raw.id.Given? { assert forall i :: 0 <= i < |raw.id.value| ==> raw.id.value[i] in raw.id.value; }
  }

  /** How a decision is written. */
  function Name(d: Decision): string {
    match d
    case Allow => "allow"
    case Conditional => "conditional"
    case Deny => "deny"
  }

  /** The match a definition makes: what it gives, or 50 for the risk, no controls, version 1, and for the reason its description or else its id. */
  ghost predicate Makes(raw: Raw, m: PolicyMatch) {
    && raw.Raw? && raw.id == Given(m.id) && raw.decision == Given(Name(m.decision))
    && (if raw.risk == Absent then m.risk == 50 else raw.risk == Given(m.risk))
    && (if raw.controls == Absent then m.controls == [] else raw.controls == Given(m.controls))
    && (if raw.version == None then m.version == "1" else raw.version == Some(m.version))
    && (raw.reason.Some? ==> m.reason == raw.reason.value)
    && (raw.reason.None? && raw.description.Some? ==> m.reason == raw.description.value)
    && (raw.reason.None? && raw.description.None? ==> m.reason == m.id)
  }

  /** The values of a field; one that is missing has the null value. */
  function Values(context: Context, field: string): set<Scalar> {
    if field !in context then {Null}
    else match context[field]
      case One(scalar) => {scalar}
      case Many(scalars) => set x | x in scalars
  }

  /** Every condition's field has a value that the condition lists or is. */
  ghost predicate Met(raw: Raw, context: Context) {
    raw.Raw? && (raw.conditions.Given? ==>
      forall c :: c in raw.conditions.value ==> exists x :: x in Values(context, c.field) && x in Expected(c.expected))
  }

  lemma MatchesExactlyWhen(context: Context, field: string, expected: Value)
    ensures Matches(Lookup(context, field), expected) <==> exists x :: x in Values(context, field) && x in Expected(expected)
  {
    match Lookup(context, field)
    case One(scalar) => assert Values(context, field) == {scalar};
    case Many(scalars) => assert forall x :: x in Values(context, field) <==> x in scalars;
  }

  lemma AppliesExactlyWhen(raw: Raw, context: Context)
    requires Acceptable(raw)
    ensures Applies(Checked(raw), context) <==> Met(raw, context)
  {
    var cs := Checked(raw).conditions;
    forall c: Condition ensures Matches(Lookup(context, c.field), c.expected) <==> exists x :: x in Values(context, c.field) && x in Expected(c.expected) {
      MatchesExactlyWhen(context, c.field, c.expected);
    }
    assert forall i :: 0 <= i < |cs| ==> cs[i] in cs;
    assert forall c :: c in cs ==> exists i :: 0 <= i < |cs| && cs[i] == c;
  }

  lemma MakesExactlyWhen(raw: Raw, m: PolicyMatch)
    requires Acceptable(raw)
    ensures ToMatch(Checked(raw)) == m <==> Makes(raw, m)
  {
    assert raw.decision.value in {Name(Allow), Name(Conditional), Name(Deny)};
  }

  lemma MatchesByIndex(policies: seq<Policy>, context: Context, m: PolicyMatch)
    ensures m in Strictest(Matching(policies, context)) <==> exists i :: 0 <= i < |policies| && Applies(policies[i], context) && ToMatch(policies[i]) == m
  {
    StrictestMembers(policies, context, m);
    assert forall i :: 0 <= i < |policies| ==> policies[i] in policies;
  }

  /** The definition's conditions are met and it makes the match. */
  ghost predicate Gives(raw: Raw, context: Context, m: PolicyMatch) { Met(raw, context) && Makes(raw, m) }

  lemma GivesExactlyWhen(raw: Raw, context: Context, m: PolicyMatch)
    requires Acceptable(raw)
    ensures Applies(Checked(raw), context) && ToMatch(Checked(raw)) == m <==> Gives(raw, context, m)
  {
    AppliesExactlyWhen(raw, context);
    MakesExactlyWhen(raw, m);
  }

  /** The matches of a valid bundle are exactly those its definitions make whose conditions are all met. */
  lemma MatchesAsWritten(raws: seq<Raw>, context: Context, m: PolicyMatch)
    requires forall i :: 0 <= i < |raws| ==> Acceptable(raws[i])
    ensures m in Strictest(Matching(CheckedAll(raws), context)) <==> exists i :: 0 <= i < |raws| && Gives(raws[i], context, m)
  {
    var ps := CheckedAll(raws);
    MatchesByIndex(ps, context, m);
    forall i | 0 <= i < |raws| ensures Applies(ps[i], context) && ToMatch(ps[i]) == m <==> Gives(raws[i], context, m) {
      GivesExactlyWhen(raws[i], context, m);
    }
  }
}
