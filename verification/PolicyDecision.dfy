/** The decision on one access: matches, the agent and the asset together, and an approved exception on top. */
module PolicyDecision {
  import opened Options
  import opened Numbers
  import opened PolicyEngine
  import Text

  datatype Agent = Agent(
    key: string, approvalStatus: string, allowedDestinations: string, allowedDomains: string, maxSensitivity: string)

  datatype Asset = Asset(id: int, sensitivity: string, businessDomain: string, publicAccess: bool)

  datatype Request = Request(destination: string, action: string, purpose: string)

  /** An active, unexpired exception of the tenant; a missing field does not restrict it. */
  datatype Exception = Exception(
    policyId: Option<string>, agentKey: Option<string>, assetId: Option<int>, destination: Option<string>,
    action: Option<string>, purpose: Option<string>, override: Decision, reason: string, controls: seq<string>)

  datatype Result = Result(decision: Decision, risk: int, reasons: seq<string>, controls: set<string>, matched: seq<string>)

  // ---------------------------------------------------------------- facts about agent and asset

  function Strip(s: string): string
    decreases |s|
  {
    if s == "" then ""
    else if Text.IsSpace(s[0]) then Strip(s[1..])
    else if Text.IsSpace(s[|s| - 1]) then Strip(s[..|s| - 1])
    else s
  }

  /** The parts of a comma-separated list, without surrounding space. */
  function Listed(text: string): set<string> {
    StripAll(Text.Split(text, ','))
  }

  function StripAll(parts: seq<string>): set<string> {
    if parts == [] then {} else {Strip(parts[0])} + StripAll(parts[1..])
  }

  predicate External(agent: Agent, destination: string) {
    destination !in Listed(agent.allowedDestinations) - {""}
  }

  function Level(sensitivity: string, otherwise: int): int {
    if sensitivity == "Public" then 0
    else if sensitivity == "Internal" then 1
    else if sensitivity == "Confidential" || sensitivity == "Unclassified" then 2
    else if sensitivity == "Restricted" then 3
    else otherwise
  }

  predicate TooSensitive(agent: Agent, asset: Asset) {
    Level(asset.sensitivity, 2) > Level(agent.maxSensitivity, 1)
  }

  predicate OutsideDomain(agent: Agent, asset: Asset) {
    asset.businessDomain != "" && agent.allowedDomains != "" && asset.businessDomain !in Listed(agent.allowedDomains)
  }

  predicate Exposed(asset: Asset) {
    asset.publicAccess && (asset.sensitivity == "Confidential" || asset.sensitivity == "Restricted")
  }

  predicate Trains(request: Request) { request.action == "train" || request.action == "fine-tune" }

  // ---------------------------------------------------------------- what a decision is made of

  /** The highest risk of the matches, at least 20. */
  function Worst(matches: seq<PolicyMatch>): int {
    if matches == [] then 20 else Max(Worst(matches[..|matches| - 1]), matches[|matches| - 1].risk)
  }

  function Points(fact: bool, points: int): int { if fact then points else 0 }

  /** What agent, asset and request add to the risk; no policy has a part in it. */
  function Surcharge(agent: Agent, asset: Asset, request: Request): int {
    Points(agent.approvalStatus != "Approved", 45) + Points(TooSensitive(agent, asset), 40) + Points(OutsideDomain(agent, asset), 25)
    + Points(External(agent, request.destination), 25) + Points(Exposed(asset), 25) + Points(Trains(request), 30)
  }

  function Risk(matches: seq<PolicyMatch>, agent: Agent, asset: Asset, request: Request): int {
    Min(100, Worst(matches) + Surcharge(agent, asset, request))
  }

  function Decide(first: Decision, approved: bool, risk: int): Decision {
    if !approved || risk >= 80 || first == Deny then Deny
    else if risk >= 50 || first == Conditional then Conditional
    else Allow
  }

  function ControlsOf(matches: seq<PolicyMatch>): set<string> {
    if matches == [] then {} else ControlsOf(matches[..|matches| - 1]) + Elements(matches[|matches| - 1].controls)
  }

  function Elements(s: seq<string>): set<string> { set x | x in s }

  function BaseControls(): seq<string> { ["audit-log", "identity-context", "tenant-context"] }

  function SensitivityControls(asset: Asset): seq<string> {
    if asset.sensitivity == "Restricted" then ["redact-direct-identifiers", "private-model-only", "no-training", "retain-decision-logs-30d"]
    else if asset.sensitivity == "Confidential" then ["redaction", "no-training", "approved-enterprise-endpoint"]
    else ["standard-retention"]
  }

  function TrainingControls(request: Request): seq<string> { if Trains(request) then ["data-owner-approval"] else [] }

  function OwnControls(asset: Asset, request: Request): set<string> {
    Elements(BaseControls()) + Elements(SensitivityControls(asset)) + Elements(TrainingControls(request))
  }

  function FirstDecision(matches: seq<PolicyMatch>): Decision { if matches == [] then Allow else matches[0].decision }

  predicate Fits<T(==)>(field: Option<T>, value: T) { field.None? || field.value == value }

  predicate ExceptionApplies(e: Exception, agent: Agent, asset: Asset, request: Request, matched: seq<string>) {
    && (e.policyId.None? || e.policyId.value in matched)
    && Fits(e.agentKey, agent.key) && Fits(e.assetId, asset.id) && Fits(e.destination, request.destination)
    && Fits(e.action, request.action) && Fits(e.purpose, request.purpose)
  }

  /** The first exception, in the order the database gives them, that applies. */
  function MatchingException(es: seq<Exception>, agent: Agent, asset: Asset, request: Request, matched: seq<string>): Option<Exception> {
    if es == [] then None
    else if ExceptionApplies(es[0], agent, asset, request, matched) then Some(es[0])
    else MatchingException(es[1..], agent, asset, request, matched)
  }

  function Ids(matches: seq<PolicyMatch>): seq<string> {
    if matches == [] then [] else Ids(matches[..|matches| - 1]) + [matches[|matches| - 1].id]
  }

  function ContextOf(agent: Agent, asset: Asset, request: Request): Context {
    map["sensitivity" := One(Words(asset.sensitivity)),
        "destination_type" := One(Words(if External(agent, request.destination) then "public_ai" else "approved_private_ai")),
        "agent_status" := One(Words(Lower(agent.approvalStatus))),
        "action" := One(Words(request.action)),
        "purpose" := One(Words(request.purpose))]
  }

  function Lower(s: string): string {
    if s == "" then ""
    else [if 'A' <= s[0] <= 'Z' then ((s[0] as int) - ('A' as int) + ('a' as int)) as char else s[0]] + Lower(s[1..])
  }

  /** The strictest-first matches of an access. */
  function MatchesOf(policies: seq<Policy>, agent: Agent, asset: Asset, request: Request): seq<PolicyMatch> {
    Strictest(Matching(policies, ContextOf(agent, asset, request)))
  }

  /** The decision before any exception. */
  function PolicyResult(policies: seq<Policy>, agent: Agent, asset: Asset, request: Request): Decision {
    var matches := MatchesOf(policies, agent, asset, request);
    Decide(FirstDecision(matches), agent.approvalStatus == "Approved", Risk(matches, agent, asset, request))
  }

  function ExceptionFor(es: seq<Exception>, policies: seq<Policy>, agent: Agent, asset: Asset, request: Request): Option<Exception> {
    MatchingException(es, agent, asset, request, Ids(MatchesOf(policies, agent, asset, request)))
  }

  /** list(dict.fromkeys(...)): the first occurrence of each text. */
  function Unique(s: seq<string>): seq<string> {
    if s == [] then []
    else if s[|s| - 1] in s[..|s| - 1] then Unique(s[..|s| - 1])
    else Unique(s[..|s| - 1]) + [s[|s| - 1]]
  }

  lemma {:induction false} UniqueKeeps(s: seq<string>)
    ensures forall x :: x in Unique(s) <==> x in s
    ensures forall i, j :: 0 <= i < j < |Unique(s)| ==> Unique(s)[i] != Unique(s)[j]
  {
    if s != [] {
      UniqueKeeps(s[..|s| - 1]);
      assert s == s[..|s| - 1] + [s[|s| - 1]];
    }
  }

  // ---------------------------------------------------------------- evaluate

  lemma ElementsJoin(a: seq<string>, b: seq<string>)
    ensures Elements(a + b) == Elements(a) + Elements(b)
  {}

  method AddMatches(matches: seq<PolicyMatch>) returns (reasons: seq<string>, controls: seq<string>, risk: int, matched: seq<string>)
    ensures |reasons| == |matches| && forall i :: 0 <= i < |matches| ==> reasons[i] == matches[i].reason
    ensures Elements(controls) == Elements(BaseControls()) + ControlsOf(matches)
    ensures risk == Worst(matches) && matched == Ids(matches)
  {
    reasons, controls, risk, matched := [], BaseControls(), 20, [];
    for k := 0 to |matches|
      invariant |reasons| == k && forall i :: 0 <= i < k ==> reasons[i] == matches[i].reason
      invariant Elements(controls) == Elements(BaseControls()) + ControlsOf(matches[..k])
      invariant risk == Worst(matches[..k]) && matched == Ids(matches[..k])
    {
      assert matches[..k + 1][..k] == matches[..k];
      reasons := reasons + [matches[k].reason];
      ElementsJoin(controls, matches[k].controls);
      controls := controls + matches[k].controls;
      risk := Max(risk, matches[k].risk);
      matched := matched + [matches[k].id];
    }
    assert matches[..|matches|] == matches;
  }

  function Noted(reasons: seq<string>, fact: bool, text: string): seq<string> { if fact then reasons + [text] else reasons }

  /** The reasons with one more for every fact about agent, asset and request that holds. */
  function WithFacts(before: seq<string>, agent: Agent, asset: Asset, request: Request): seq<string> {
    var r1 := Noted(before, agent.approvalStatus != "Approved", "AI agent is not approved for production data access");
    var r2 := Noted(r1, TooSensitive(agent, asset), "Asset sensitivity exceeds the agent's approved " + agent.maxSensitivity + " ceiling");
    var r3 := Noted(r2, OutsideDomain(agent, asset), "Business domain is outside the agent's approved purpose boundary");
    var r4 := Noted(r3, External(agent, request.destination), "Destination is not on the agent's approved destination list");
    var r5 := Noted(r4, Exposed(asset), "Sensitive asset has public exposure");
    Noted(r5, Trains(request), "Training use requires explicit data-owner approval")
  }

  method Note(fact: bool, text: string, points: int, before: seq<string>, risk: int) returns (reasons: seq<string>, total: int)
    ensures reasons == Noted(before, fact, text) && total == risk + Points(fact, points)
  {
    reasons, total := before, risk;
    if fact { reasons, total := reasons + [text], total + points; }
  }

  /** The facts about agent, asset and request, each with its reason and its points. */
  method AddFacts(agent: Agent, asset: Asset, request: Request, before: seq<string>, risk: int) returns (reasons: seq<string>, total: int)
    ensures reasons == WithFacts(before, agent, asset, request)
    ensures total == risk + Surcharge(agent, asset, request)
  {
    reasons, total := Note(agent.approvalStatus != "Approved", "AI agent is not approved for production data access", 45, before, risk);
    reasons, total := Note(TooSensitive(agent, asset), "Asset sensitivity exceeds the agent's approved " + agent.maxSensitivity + " ceiling", 40, reasons, total);
    reasons, total := Note(OutsideDomain(agent, asset), "Business domain is outside the agent's approved purpose boundary", 25, reasons, total);
    reasons, total := Note(External(agent, request.destination), "Destination is not on the agent's approved destination list", 25, reasons, total);
    reasons, total := Note(Exposed(asset), "Sensitive asset has public exposure", 25, reasons, total);
    reasons, total := Note(Trains(request), "Training use requires explicit data-owner approval", 30, reasons, total);
  }

  lemma NotedAfter(before: seq<string>, said: seq<string>, fact: bool, text: string)
    ensures Noted(before + said, fact, text) == before + Noted(said, fact, text)
  {}

  lemma FactsFollow(before: seq<string>, agent: Agent, asset: Asset, request: Request)
    ensures WithFacts(before, agent, asset, request) == before + WithFacts([], agent, asset, request)
  {
    var t1, t2 := "AI agent is not approved for production data access", "Asset sensitivity exceeds the agent's approved " + agent.maxSensitivity + " ceiling";
    var t3, t4 := "Business domain is outside the agent's approved purpose boundary", "Destination is not on the agent's approved destination list";
    var r1 := Noted([], agent.approvalStatus != "Approved", t1);
    var r2 := Noted(r1, TooSensitive(agent, asset), t2);
    var r3 := Noted(r2, OutsideDomain(agent, asset), t3);
    var r4 := Noted(r3, External(agent, request.destination), t4);
    var r5 := Noted(r4, Exposed(asset), "Sensitive asset has public exposure");
    assert before + [] == before;
    NotedAfter(before, [], agent.approvalStatus != "Approved", t1);
    NotedAfter(before, r1, TooSensitive(agent, asset), t2);
    NotedAfter(before, r2, OutsideDomain(agent, asset), t3);
    NotedAfter(before, r3, External(agent, request.destination), t4);
    NotedAfter(before, r4, Exposed(asset), "Sensitive asset has public exposure");
    NotedAfter(before, r5, Trains(request), "Training use requires explicit data-owner approval");
  }

  /** Risk is added exactly when a reason is. */
  lemma NoPointsWithoutReason(before: seq<string>, agent: Agent, asset: Asset, request: Request)
    ensures Surcharge(agent, asset, request) >= 0
    ensures Surcharge(agent, asset, request) == 0 <==> WithFacts(before, agent, asset, request) == before
    ensures Surcharge(agent, asset, request) == 0 <==> WithFacts([], agent, asset, request) == []
  {
    FactsFollow(before, agent, asset, request);
  }

  /**
   What an access must be for the policies to allow it: an approved agent, no excess sensitivity, no training, at most one
   of the three smaller facts, no match with a risk of 50 or more, and no match that denies or sets conditions.
   */
  lemma AllowedAccess(policies: seq<Policy>, agent: Agent, asset: Asset, request: Request)
    requires PolicyResult(policies, agent, asset, request) == Allow
    ensures agent.approvalStatus == "Approved" && !TooSensitive(agent, asset) && request.action != "train" && request.action != "fine-tune"
    ensures !(OutsideDomain(agent, asset) && External(agent, request.destination))
    ensures !(OutsideDomain(agent, asset) && Exposed(asset)) && !(External(agent, request.destination) && Exposed(asset))
    ensures forall m :: m in MatchesOf(policies, agent, asset, request) ==> m.decision == Allow && m.risk < 50
  {
    var matches := MatchesOf(policies, agent, asset, request);
    WorstBounds(matches);
    FirstIsStrictest(policies, agent, asset, request);
    NoPointsWithoutReason([], agent, asset, request);
  }

  /** The texts before repetitions go: those of the matches, then of the facts, or a default, then of the exception. */
  function Texts(matches: seq<PolicyMatch>, facts: seq<string>, e: Option<Exception>): seq<string> {
    var found := Reasons(matches) + facts;
    var told := if found == [] then ["Agent, purpose, data sensitivity, and destination are within policy"] else found;
    if e.Some? then told + [Granted(e.value)] else told
  }

  function Granted(e: Exception): string { "Approved exception: " + e.reason }

  function Reasons(matches: seq<PolicyMatch>): (r: seq<string>)
    ensures |r| == |matches| && forall i :: 0 <= i < |r| ==> r[i] == matches[i].reason
  {
    if matches == [] then [] else Reasons(matches[..|matches| - 1]) + [matches[|matches| - 1].reason]
  }

  /** A decision is always explained, nothing is said twice, and every reason of a match, a fact or the exception is given. */
  lemma EveryReasonIsGiven(matches: seq<PolicyMatch>, facts: seq<string>, e: Option<Exception>)
    ensures Unique(Texts(matches, facts, e)) != []
    ensures forall i, j :: 0 <= i < j < |Unique(Texts(matches, facts, e))| ==> Unique(Texts(matches, facts, e))[i] != Unique(Texts(matches, facts, e))[j]
    ensures forall m :: m in matches ==> m.reason in Unique(Texts(matches, facts, e))
    ensures forall x :: x in facts ==> x in Unique(Texts(matches, facts, e))
    ensures e.Some? ==> Granted(e.value) in Unique(Texts(matches, facts, e))
  {
    var texts := Texts(matches, facts, e);
    UniqueKeeps(texts);
    TextsHold(matches, facts, e);
    assert texts[0] in texts;
  }

  lemma TextsHold(matches: seq<PolicyMatch>, facts: seq<string>, e: Option<Exception>)
    ensures Texts(matches, facts, e) != []
    ensures forall m :: m in matches ==> m.reason in Texts(matches, facts, e)
    ensures forall x :: x in facts ==> x in Texts(matches, facts, e)
    ensures e.Some? ==> Granted(e.value) in Texts(matches, facts, e)
  {
    var texts := Texts(matches, facts, e);
    forall m | m in matches ensures m.reason in texts {
      var i :| 0 <= i < |matches| && matches[i] == m;
      assert texts[i] == Reasons(matches)[i];
    }
    forall x | x in facts ensures x in texts {
      var i :| 0 <= i < |facts| && facts[i] == x;
      assert texts[|matches| + i] == x;
    }
    if e.Some? { assert texts[|texts| - 1] == Granted(e.value); }
  }

  /** Reasons, risk, controls and matched policies, before the decision is made. */
  method Gather(agent: Agent, asset: Asset, request: Request, matches: seq<PolicyMatch>)
    returns (reasons: seq<string>, controls: seq<string>, risk: int, matched: seq<string>)
    ensures reasons == Reasons(matches) + WithFacts([], agent, asset, request)
    ensures Elements(controls) == ControlsOf(matches) + OwnControls(asset, request)
    ensures risk == Worst(matches) + Surcharge(agent, asset, request) && matched == Ids(matches)
  {
    reasons, controls, risk, matched := AddMatches(matches);
    assert reasons == Reasons(matches);
    FactsFollow(reasons, agent, asset, request);
    reasons, risk := AddFacts(agent, asset, request, reasons, risk);
    ElementsJoin(controls, SensitivityControls(asset));
    ElementsJoin(controls + SensitivityControls(asset), TrainingControls(request));
    controls := controls + SensitivityControls(asset) + TrainingControls(request);
  }

  method Evaluate(agent: Agent, asset: Asset, request: Request, policies: seq<Policy>, exceptions: seq<Exception>) returns (r: Result)
    ensures var matches := MatchesOf(policies, agent, asset, request);
            var e := ExceptionFor(exceptions, policies, agent, asset, request);
            && r.risk == Risk(matches, agent, asset, request)
            && r.decision == (if e.Some? then e.value.override else PolicyResult(policies, agent, asset, request))
            && r.controls == ControlsOf(matches) + OwnControls(asset, request) + (if e.Some? then Elements(e.value.controls) else {})
            && r.matched == Ids(matches)
            && r.reasons == Unique(Texts(matches, WithFacts([], agent, asset, request), e))
  {
    var matches := MatchesOf(policies, agent, asset, request);
    var reasons, controls, risk, matched := Gather(agent, asset, request, matches);
    risk := Min(100, risk);
    var decision := Decide(FirstDecision(matches), agent.approvalStatus == "Approved", risk);
    if reasons == [] {
      reasons := ["Agent, purpose, data sensitivity, and destination are within policy"];
    }
    var e := MatchingException(exceptions, agent, asset, request, matched);
    if e.Some? {
      decision := e.value.override;
      reasons := reasons + [Granted(e.value)];
      ElementsJoin(controls, e.value.controls);
      controls := controls + e.value.controls;
    }
    r := Result(decision, risk, Unique(reasons), Elements(controls), matched);
  }

  // ---------------------------------------------------------------- whom an exception covers

  /** Every field the exception has is the access's; a policy it has is among those matched. */
  ghost predicate Covers(e: Exception, agent: Agent, asset: Asset, request: Request, matched: seq<string>) {
    && (e.policyId.Some? ==> e.policyId.value in matched)
    && (e.agentKey.Some? ==> e.agentKey.value == agent.key)
    && (e.assetId.Some? ==> e.assetId.value == asset.id)
    && (e.destination.Some? ==> e.destination.value == request.destination)
    && (e.action.Some? ==> e.action.value == request.action)
    && (e.purpose.Some? ==> e.purpose.value == request.purpose)
  }

  /** e is the first of the exceptions that covers the access, or none does. */
  ghost predicate FirstToCover(
    es: seq<Exception>, agent: Agent, asset: Asset, request: Request, matched: seq<string>, e: Option<Exception>)
  {
    match e
    case None => forall x :: x in es ==> !Covers(x, agent, asset, request, matched)
    case Some(found) =>
      exists k :: 0 <= k < |es| && es[k] == found && Covers(es[k], agent, asset, request, matched)
               && forall j :: 0 <= j < k ==> !Covers(es[j], agent, asset, request, matched)
  }

  /** The exception taken is the first one that covers the access, and none is taken exactly when none covers it. */
  lemma {:induction false} TakenIsFirstToCover(es: seq<Exception>, agent: Agent, asset: Asset, request: Request, matched: seq<string>)
    ensures FirstToCover(es, agent, asset, request, matched, MatchingException(es, agent, asset, request, matched))
  {
    if es != [] {
      TakenIsFirstToCover(es[1..], agent, asset, request, matched);
      var e := MatchingException(es, agent, asset, request, matched);
      if Covers(es[0], agent, asset, request, matched) {
        assert es[0] == e.value;
      } else if e.Some? {
        var k :| 0 <= k < |es[1..]| && es[1..][k] == e.value && Covers(es[1..][k], agent, asset, request, matched)
              && forall j :: 0 <= j < k ==> !Covers(es[1..][j], agent, asset, request, matched);
        assert es[k + 1] == e.value;
        assert forall j :: 1 <= j < k + 1 ==> es[j] == es[1..][j - 1];
      } else {
        assert forall x :: x in es ==> x == es[0] || x in es[1..];
      }
    }
  }

  // ---------------------------------------------------------------- what the policies see

  predicate AllSpace(s: string) { forall i :: 0 <= i < |s| ==> Text.IsSpace(s[i]) }

  lemma SpaceJoins(a: string, b: string)
    requires AllSpace(a) && AllSpace(b)
    ensures AllSpace(a + b)
  {}

  /** The text is what is left with only space before and after it. */
  ghost predicate Around(s: string, before: string, kept: string, after: string) {
    s == before + kept + after && AllSpace(before) && AllSpace(after)
  }

  lemma OneBefore(c: char, s: string, before: string, kept: string, after: string)
    requires Text.IsSpace(c) && Around(s, before, kept, after)
    ensures Around([c] + s, [c] + before, kept, after)
  {
    SpaceJoins([c], before);
    assert [c] + s == [c] + before + kept + after;
  }

  lemma OneAfter(c: char, s: string, before: string, kept: string, after: string)
    requires Text.IsSpace(c) && Around(s, before, kept, after)
    ensures Around(s + [c], before, kept, after + [c])
  {
    SpaceJoins(after, [c]);
    assert s + [c] == before + kept + (after + [c]);
  }

  /** What is left has no space at either end. */
  lemma {:induction false} StripEnds(s: string)
    ensures Strip(s) != "" ==> !Text.IsSpace(Strip(s)[0]) && !Text.IsSpace(Strip(s)[|Strip(s)| - 1])
    decreases |s|
  {
    if s != "" && Text.IsSpace(s[0]) {
      StripEnds(s[1..]);
    } else if s != "" && Text.IsSpace(s[|s| - 1]) {
      StripEnds(s[..|s| - 1]);
    }
  }

  /** Only space is taken away, and only from the ends. */
  lemma {:induction false} StripTakesSpace(s: string) returns (before: string, after: string)
    ensures Around(s, before, Strip(s), after)
    decreases |s|
  {
    if s != "" && Text.IsSpace(s[0]) {
      var front, back := StripTakesSpace(s[1..]);
      OneBefore(s[0], s[1..], front, Strip(s[1..]), back);
      assert s == [s[0]] + s[1..];
      return [s[0]] + front, back;
    }
    if s != "" && Text.IsSpace(s[|s| - 1]) {
      var front, back := StripTakesSpace(s[..|s| - 1]);
      OneAfter(s[|s| - 1], s[..|s| - 1], front, Strip(s[..|s| - 1]), back);
      assert s == s[..|s| - 1] + [s[|s| - 1]];
      return front, back + [s[|s| - 1]];
    }
    assert s == "" + Strip(s) + "";
    return "", "";
  }

  lemma {:induction false} StripAllMembers(parts: seq<string>, x: string)
    ensures x in StripAll(parts) <==> exists i :: 0 <= i < |parts| && Strip(parts[i]) == x
  {
    if parts != [] {
      StripAllMembers(parts[1..], x);
      assert forall i :: 1 <= i < |parts| ==> parts[i] == parts[1..][i - 1];
    }
  }

  /** A destination is external unless it is one of the parts of the agent's list, without the space around them. */
  lemma ExternalExactlyWhen(agent: Agent, destination: string)
    ensures External(agent, destination) <==>
      destination == "" || forall part :: part in Text.Split(agent.allowedDestinations, ',') ==> Strip(part) != destination
  {
    StripAllMembers(Text.Split(agent.allowedDestinations, ','), destination);
  }

  /** A business domain is outside unless it or the agent's list is empty, or it is one of the list's parts. */
  lemma OutsideExactlyWhen(agent: Agent, asset: Asset)
    ensures OutsideDomain(agent, asset) <==>
      && asset.businessDomain != "" && agent.allowedDomains != ""
      && forall part :: part in Text.Split(agent.allowedDomains, ',') ==> Strip(part) != asset.businessDomain
  {
    StripAllMembers(Text.Split(agent.allowedDomains, ','), asset.businessDomain);
  }

  lemma {:induction false} LowerIs(s: string)
    ensures |Lower(s)| == |s|
    ensures forall i :: 0 <= i < |s| ==> Lower(s)[i] == if 'A' <= s[i] <= 'Z' then (s[i] as int + 32) as char else s[i]
  {
    if s != "" { LowerIs(s[1..]); }
  }

  /** The text the policies see under a name. */
  ghost predicate Shows(context: Context, name: string, text: string) { name in context && context[name] == One(Words(text)) }

  /** Each thing the policies see, and that they see nothing else. */
  lemma ContextShows(agent: Agent, asset: Asset, request: Request)
    ensures var c := ContextOf(agent, asset, request);
      && c.Keys == {"sensitivity", "destination_type", "agent_status", "action", "purpose"}
      && Shows(c, "sensitivity", asset.sensitivity) && Shows(c, "agent_status", Lower(agent.approvalStatus))
      && Shows(c, "action", request.action) && Shows(c, "purpose", request.purpose)
      && Shows(c, "destination_type", if External(agent, request.destination) then "public_ai" else "approved_private_ai")
  {}

  /**
   A ceiling of Restricted is never exceeded, one of Confidential only by Restricted, one of Public by everything but
   Public, and any other by everything but Public and Internal.
   */
  lemma ExceedsExactlyWhen(agent: Agent, asset: Asset)
    ensures TooSensitive(agent, asset) <==>
      match agent.maxSensitivity
      case "Restricted" => false
      case "Confidential" => asset.sensitivity == "Restricted"
      case "Unclassified" => asset.sensitivity == "Restricted"
      case "Public" => asset.sensitivity != "Public"
      case _ => asset.sensitivity != "Public" && asset.sensitivity != "Internal"
  {}

  // ---------------------------------------------------------------- what depends on the policies

  lemma {:induction false} WorstBounds(matches: seq<PolicyMatch>)
    ensures Worst(matches) >= 20 && forall m :: m in matches ==> m.risk <= Worst(matches)
    ensures Worst(matches) == 20 || exists m :: m in matches && m.risk == Worst(matches)
  {
    if matches != [] {
      var front, last := matches[..|matches| - 1], matches[|matches| - 1];
      WorstBounds(front);
      assert matches == front + [last];
      assert last in matches;
    }
  }

  lemma {:induction false} ControlsMembers(matches: seq<PolicyMatch>, c: string)
    ensures c in ControlsOf(matches) <==> exists m :: m in matches && c in m.controls
  {
    if matches != [] {
      var front, last := matches[..|matches| - 1], matches[|matches| - 1];
      ControlsMembers(front, c);
      assert matches == front + [last];
    }
  }

  lemma {:induction false} IdsMembers(matches: seq<PolicyMatch>, id: string)
    ensures id in Ids(matches) <==> exists m :: m in matches && m.id == id
  {
    if matches != [] {
      var front, last := matches[..|matches| - 1], matches[|matches| - 1];
      IdsMembers(front, id);
      assert matches == front + [last];
    }
  }

  /** The first match is the strictest. */
  lemma FirstIsStrictest(policies: seq<Policy>, agent: Agent, asset: Asset, request: Request)
    ensures var ms := MatchesOf(policies, agent, asset, request);
            forall m :: m in ms ==> Rank(m.decision) <= Rank(FirstDecision(ms))
  {
    StrictestIsStable(Matching(policies, ContextOf(agent, asset, request)));
  }

  /** What each fact costs: 45 for an agent that is not approved, 40 for too high a sensitivity, 30 for training, and 25 for each of the others. */
  lemma ChargesAre(agent: Agent, asset: Asset, request: Request)
    ensures Surcharge(agent, asset, request) ==
      (if agent.approvalStatus == "Approved" then 0 else 45) + (if TooSensitive(agent, asset) then 40 else 0)
      + (if request.action in {"train", "fine-tune"} then 30 else 0)
      + (if OutsideDomain(agent, asset) then 25 else 0) + (if External(agent, request.destination) then 25 else 0)
      + (if asset.publicAccess && asset.sensitivity in {"Confidential", "Restricted"} then 25 else 0)
  {}

  /** The risk is the highest of the matches', and never below 20, plus what the facts cost, and never above 100. */
  lemma RiskIs(policies: seq<Policy>, agent: Agent, asset: Asset, request: Request)
    ensures var ms := MatchesOf(policies, agent, asset, request); var risk, cost := Risk(ms, agent, asset, request), Surcharge(agent, asset, request);
      && 20 <= risk && risk <= 100 && (risk < 100 ==> (risk == 20 + cost || exists m :: m in ms && risk == m.risk + cost))
      && (risk < 20 + cost ==> risk == 100) && (forall m :: m in ms ==> risk == 100 || risk >= m.risk + cost)
  {
    WorstBounds(MatchesOf(policies, agent, asset, request));
    NoPointsWithoutReason([], agent, asset, request);
  }

  /** Which controls an access gets whatever matches: three always, the asset's by its sensitivity, and the owner's approval for training. */
  lemma OwnControlsAre(asset: Asset, request: Request, c: string)
    ensures c in OwnControls(asset, request) <==>
      || c in {"audit-log", "identity-context", "tenant-context"}
      || (asset.sensitivity == "Restricted" && c in {"redact-direct-identifiers", "private-model-only", "no-training", "retain-decision-logs-30d"})
      || (asset.sensitivity == "Confidential" && c in {"redaction", "no-training", "approved-enterprise-endpoint"})
      || (asset.sensitivity != "Restricted" && asset.sensitivity != "Confidential" && c == "standard-retention")
      || (request.action in {"train", "fine-tune"} && c == "data-owner-approval")
  {}

  /** Some match asks for the decision. */
  ghost predicate Asked(matches: seq<PolicyMatch>, d: Decision) { exists m :: m in matches && m.decision == d }

  /**
   The policies deny exactly when the agent is not approved, the risk is 80 or more, or some match denies; otherwise they
   set conditions exactly when the risk is 50 or more or some match does.
   */
  lemma ResultExactlyWhen(policies: seq<Policy>, agent: Agent, asset: Asset, request: Request)
    ensures var ms := MatchesOf(policies, agent, asset, request);
            var risk, result := Risk(ms, agent, asset, request), PolicyResult(policies, agent, asset, request);
            && (result == Deny <==> agent.approvalStatus != "Approved" || risk >= 80 || Asked(ms, Deny))
            && (result == Conditional <==> result != Deny && (risk >= 50 || Asked(ms, Conditional)))
  {
    FirstIsStrictest(policies, agent, asset, request);
    var ms := MatchesOf(policies, agent, asset, request);
    if ms != [] { assert ms[0] in ms; }
  }

  ghost predicate Within(a: seq<PolicyMatch>, b: seq<PolicyMatch>) { forall m :: m in a ==> m in b }

  lemma MoreMatches(ps: seq<Policy>, qs: seq<Policy>, agent: Agent, asset: Asset, request: Request)
    requires forall p :: p in ps ==> p in qs
    ensures Within(MatchesOf(ps, agent, asset, request), MatchesOf(qs, agent, asset, request))
  {
    var context := ContextOf(agent, asset, request);
    forall m | m in MatchesOf(ps, agent, asset, request) ensures m in MatchesOf(qs, agent, asset, request) {
      StrictestMembers(ps, context, m);
      StrictestMembers(qs, context, m);
    }
  }

  lemma MoreRisk(a: seq<PolicyMatch>, b: seq<PolicyMatch>)
    requires Within(a, b)
    ensures Worst(a) <= Worst(b) && ControlsOf(a) <= ControlsOf(b)
    ensures forall id :: id in Ids(a) ==> id in Ids(b)
  {
    WorstBounds(a);
    WorstBounds(b);
    forall c | c in ControlsOf(a) ensures c in ControlsOf(b) {
      ControlsMembers(a, c);
      ControlsMembers(b, c);
    }
    forall id | id in Ids(a) ensures id in Ids(b) {
      IdsMembers(a, id);
      IdsMembers(b, id);
    }
  }

  lemma DecideGrows(first: Decision, second: Decision, approved: bool, low: int, high: int)
    requires Rank(first) <= Rank(second) && low <= high
    ensures Rank(Decide(first, approved, low)) <= Rank(Decide(second, approved, high))
  {}

  /** More policies never make the policy decision or the risk milder, and drop no control. */
  lemma MorePoliciesAreStricter(ps: seq<Policy>, qs: seq<Policy>, agent: Agent, asset: Asset, request: Request)
    requires forall p :: p in ps ==> p in qs
    ensures var a, b := MatchesOf(ps, agent, asset, request), MatchesOf(qs, agent, asset, request);
            && Rank(PolicyResult(ps, agent, asset, request)) <= Rank(PolicyResult(qs, agent, asset, request))
            && Risk(a, agent, asset, request) <= Risk(b, agent, asset, request)
            && ControlsOf(a) <= ControlsOf(b)
  {
    var a, b := MatchesOf(ps, agent, asset, request), MatchesOf(qs, agent, asset, request);
    MoreMatches(ps, qs, agent, asset, request);
    MoreRisk(a, b);
    FirstIsStrictest(qs, agent, asset, request);
    assert a != [] ==> a[0] in b;
    DecideGrows(FirstDecision(a), FirstDecision(b), agent.approvalStatus == "Approved", Risk(a, agent, asset, request), Risk(b, agent, asset, request));
  }

  lemma {:induction false} SameException(es: seq<Exception>, agent: Agent, asset: Asset, request: Request, a: seq<string>, b: seq<string>)
    requires forall id :: id in a <==> id in b
    ensures MatchingException(es, agent, asset, request, a) == MatchingException(es, agent, asset, request, b)
  {
    if es != [] { SameException(es[1..], agent, asset, request, a, b); }
  }

  /** Decision, risk, controls and the exception taken do not depend on the order of the policies. */
  lemma OrderIrrelevant(ps: seq<Policy>, qs: seq<Policy>, es: seq<Exception>, agent: Agent, asset: Asset, request: Request)
    requires multiset(ps) == multiset(qs)
    ensures var a, b := MatchesOf(ps, agent, asset, request), MatchesOf(qs, agent, asset, request);
            && PolicyResult(ps, agent, asset, request) == PolicyResult(qs, agent, asset, request)
            && Risk(a, agent, asset, request) == Risk(b, agent, asset, request)
            && ControlsOf(a) == ControlsOf(b)
            && ExceptionFor(es, ps, agent, asset, request) == ExceptionFor(es, qs, agent, asset, request)
  {
    assert forall p :: p in ps <==> p in multiset(ps);
    assert forall p :: p in qs <==> p in multiset(qs);
    MorePoliciesAreStricter(ps, qs, agent, asset, request);
    MorePoliciesAreStricter(qs, ps, agent, asset, request);
    MoreMatches(ps, qs, agent, asset, request);
    MoreMatches(qs, ps, agent, asset, request);
    var a, b := MatchesOf(ps, agent, asset, request), MatchesOf(qs, agent, asset, request);
    MoreRisk(a, b);
    MoreRisk(b, a);
    SameException(es, agent, asset, request, Ids(a), Ids(b));
  }

  /** The decision on the access: the exception's, if one is taken. */
  function Final(es: seq<Exception>, policies: seq<Policy>, agent: Agent, asset: Asset, request: Request): Decision {
    var e := ExceptionFor(es, policies, agent, asset, request);
    if e.Some? then e.value.override else PolicyResult(policies, agent, asset, request)
  }

  /** An exception taken for more matches and not for fewer is scoped to one of the new ones. */
  lemma {:induction false} NewExceptionIsScoped(es: seq<Exception>, agent: Agent, asset: Asset, request: Request, a: seq<string>, b: seq<string>)
    requires forall id :: id in a ==> id in b
    ensures var before, after := MatchingException(es, agent, asset, request, a), MatchingException(es, agent, asset, request, b);
      && (before.Some? ==> after.Some?)
      && (before != after ==> after.value.policyId.Some? && after.value.policyId.value in b && after.value.policyId.value !in a)
  {
    if es != [] { NewExceptionIsScoped(es[1..], agent, asset, request, a, b); }
  }

  lemma WithOneMore(ps: seq<Policy>, k: nat, p: Policy, qs: seq<Policy>, agent: Agent, asset: Asset, request: Request)
    requires k <= |ps| && qs == ps[..k] + [p] + ps[k..]
    ensures forall x :: x in ps ==> x in qs
    ensures forall id :: id in Ids(MatchesOf(ps, agent, asset, request)) ==> id in Ids(MatchesOf(qs, agent, asset, request))
    ensures forall id :: id in Ids(MatchesOf(qs, agent, asset, request)) && id !in Ids(MatchesOf(ps, agent, asset, request)) ==>
              id == p.id && Applies(p, ContextOf(agent, asset, request))
  {
    var a, b := MatchesOf(ps, agent, asset, request), MatchesOf(qs, agent, asset, request);
    assert ps == ps[..k] + ps[k..];
    assert forall x :: x in qs <==> x in ps || x == p;
    MoreMatches(ps, qs, agent, asset, request);
    MoreRisk(a, b);
    forall id | id in Ids(b) && id !in Ids(a) ensures id == p.id && Applies(p, ContextOf(agent, asset, request)) {
      IdsMembers(b, id);
      var m :| m in b && m.id == id;
      StrictestMembers(qs, ContextOf(agent, asset, request), m);
      StrictestMembers(ps, ContextOf(agent, asset, request), m);
      IdsMembers(a, id);
    }
  }

  /** Adding a policy anywhere never lowers the risk or the decision of the policies, and drops none of their controls. */
  lemma AddingAPolicy(ps: seq<Policy>, k: nat, p: Policy, agent: Agent, asset: Asset, request: Request)
    requires k <= |ps|
    ensures var qs := ps[..k] + [p] + ps[k..];
            var a, b := MatchesOf(ps, agent, asset, request), MatchesOf(qs, agent, asset, request);
            && Rank(PolicyResult(ps, agent, asset, request)) <= Rank(PolicyResult(qs, agent, asset, request))
            && Risk(a, agent, asset, request) <= Risk(b, agent, asset, request)
            && ControlsOf(a) <= ControlsOf(b)
  {
    WithOneMore(ps, k, p, ps[..k] + [p] + ps[k..], agent, asset, request);
    MorePoliciesAreStricter(ps, ps[..k] + [p] + ps[k..], agent, asset, request);
  }

  /**
   Adding a policy makes the final decision milder exactly when it applies to the access under an id that matched nothing
   before, and the exception taken is now one scoped to that id whose override ranks below the decision so far.
   */
  lemma MilderExactlyWhen(ps: seq<Policy>, k: nat, p: Policy, es: seq<Exception>, agent: Agent, asset: Asset, request: Request)
    requires k <= |ps|
    ensures var qs := ps[..k] + [p] + ps[k..];
            var e := ExceptionFor(es, qs, agent, asset, request);
            Rank(Final(es, qs, agent, asset, request)) < Rank(Final(es, ps, agent, asset, request)) <==>
              && Applies(p, ContextOf(agent, asset, request)) && p.id !in Ids(MatchesOf(ps, agent, asset, request))
              && e.Some? && e.value.policyId == Some(p.id)
              && Rank(e.value.override) < Rank(Final(es, ps, agent, asset, request))
  {
    var qs := ps[..k] + [p] + ps[k..];
    var a, b := Ids(MatchesOf(ps, agent, asset, request)), Ids(MatchesOf(qs, agent, asset, request));
    WithOneMore(ps, k, p, ps[..k] + [p] + ps[k..], agent, asset, request);
    assert forall id :: id in a ==> id in b;
    AddingAPolicy(ps, k, p, agent, asset, request);
    NewExceptionIsScoped(es, agent, asset, request, a, b);
  }

  /** An exception scoped to a policy applies from the moment that policy matches. */
  lemma ScopedExceptionArrives(ps: seq<Policy>, p: Policy, e: Exception, agent: Agent, asset: Asset, request: Request)
    requires Applies(p, ContextOf(agent, asset, request)) && p.id !in Ids(MatchesOf(ps, agent, asset, request))
    requires e.policyId == Some(p.id) && ExceptionApplies(e, agent, asset, request, [p.id])
    ensures ExceptionFor([e], ps, agent, asset, request) == None
    ensures ExceptionFor([e], ps + [p], agent, asset, request) == Some(e)
  {
    var ms := MatchesOf(ps + [p], agent, asset, request);
    StrictestMembers(ps + [p], ContextOf(agent, asset, request), ToMatch(p));
    assert p in ps + [p];
    IdsMembers(ms, p.id);
    assert ToMatch(p) in ms && ToMatch(p).id == p.id;
    assert [e][1..] == [] && [e][0] == e;
    assert !ExceptionApplies(e, agent, asset, request, Ids(MatchesOf(ps, agent, asset, request)));
    assert MatchingException([e][1..], agent, asset, request, Ids(MatchesOf(ps, agent, asset, request))) == None;
  }

  /** A policy that applies to everything, as it is once its definition is checked. */
  function Always(id: string, decision: Decision): Policy { Policy(id, decision, [], 50, [], id, "1") }

  lemma AlwaysMatches(p: Policy, agent: Agent, asset: Asset, request: Request)
    requires p.conditions == []
    ensures Matching([p], ContextOf(agent, asset, request)) == [ToMatch(p)]
    ensures MatchesOf([p], agent, asset, request) == [ToMatch(p)]
  {
    var m := ToMatch(p);
    assert [p][..0] == [] && [m][1..] == [];
    assert OfDecision([m], p.decision) == [m];
    assert forall d :: d != p.decision ==> OfDecision([m], d) == [];
  }

  /** A policy that denies whatever it matches denies, unless an exception is taken. */
  lemma DenialStands(p: Policy, es: seq<Exception>, agent: Agent, asset: Asset, request: Request)
    requires p.conditions == [] && p.decision == Deny && ExceptionFor(es, [p], agent, asset, request) == None
    ensures Final(es, [p], agent, asset, request) == Deny
  {
    AlwaysMatches(p, agent, asset, request);
    assert FirstDecision([ToMatch(p)]) == Deny;
  }

  lemma OnlyId(p: Policy, agent: Agent, asset: Asset, request: Request)
    requires p.conditions == []
    ensures Ids(MatchesOf([p], agent, asset, request)) == [p.id]
  {
    AlwaysMatches(p, agent, asset, request);
    assert [ToMatch(p)][..0] == [];
  }

  /** An exception that asks only for a policy, and allows. */
  function AllowFor(id: string): Exception { Exception(Some(id), None, None, None, None, None, Allow, "approved", []) }

  /**
   For every access: a policy denies it, and adding one that sets conditions, with an approved exception scoped to the new
   one, allows it.
   */
  lemma DenyBecomesAllow(a: string, b: string, agent: Agent, asset: Asset, request: Request)
    requires a != b
    ensures Final([AllowFor(b)], [Always(a, Deny)], agent, asset, request) == Deny
    ensures Final([AllowFor(b)], [Always(a, Deny)] + [Always(b, Conditional)], agent, asset, request) == Allow
  {
    var p, q, e := Always(a, Deny), Always(b, Conditional), AllowFor(b);
    OnlyId(p, agent, asset, request);
    ScopedExceptionArrives([p], q, e, agent, asset, request);
    DenialStands(p, [e], agent, asset, request);
  }
}
