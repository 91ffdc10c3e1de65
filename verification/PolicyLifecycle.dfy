/**
 Policy bundles and rollouts of one tenant: draft, submit, approve, activate, roll back, and a rollout's stages
 with their outbox events. Every operation is one transaction; a refused one leaves everything as it was.
 */
module PolicyLifecycle {
  import opened Options

  datatype BundleStatus = Draft | Pending | Approved | Active | Retired

  datatype Bundle = Bundle(
    createdBy: string, status: BundleStatus, approvedBy: Option<string>, activatedAt: Option<int>, retiredAt: Option<int>)

  datatype Stage = Shadow | Canary | Paused | Enforce | Completed

  datatype Rollout = Rollout(bundle: nat, baseline: Option<nat>, stage: Stage, traffic: int, done: bool, completedAt: Option<int>)

  /** Outbox keys: one for the creation of a rollout, one for each stage with its traffic. */
  datatype Key = Created(rollout: nat) | Staged(rollout: nat, stage: Stage, traffic: int)

  datatype Event = Event(kind: string, rollout: nat, bundle: nat, stage: Stage, traffic: int, done: bool)

  datatype State = State(bundles: seq<Bundle>, rollouts: seq<Rollout>, outbox: map<Key, Event>)

  datatype Fault = NotFound | WrongStatus | SameIdentity | NotDelegated | AlreadyActive | BadTraffic | NotAllowed | NotApproved | Conflict

  datatype Operation =
    | Propose(author: string)
    | Submit(bundle: nat)
    | Approve(bundle: nat, subject: string, delegated: bool)
    | Activate(bundle: nat, now: int)
    | Rollback(bundle: nat, now: int)
    | Create(bundle: nat, stage: Stage, percentage: int)
    | Advance(rollout: nat, stage: Stage, traffic: Option<int>, now: int)

  /** The new state, or the fault that leaves the state alone. */
  datatype Outcome = Done(state: State) | Refused(fault: Fault)

  // ---------------------------------------------------------------- bundles

  function FirstActive(bundles: seq<Bundle>): (k: Option<nat>)
    ensures k.Some? ==> k.value < |bundles| && bundles[k.value].status.Active?
    ensures k.None? ==> forall i :: 0 <= i < |bundles| ==> !bundles[i].status.Active?
  {
    if bundles == [] then None
    else if bundles[|bundles| - 1].status.Active? then Some(|bundles| - 1)
    else FirstActive(bundles[..|bundles| - 1])
  }

  function Retire(b: Bundle, now: int): Bundle { b.(status := Retired, retiredAt := Some(now)) }

  function MadeActive(b: Bundle, now: int): Bundle { b.(status := Active, activatedAt := Some(now), retiredAt := None) }

  /** _activate_bundle: the active bundle, if it is another one, retires. */
  function Activated(bundles: seq<Bundle>, k: nat, now: int): (r: seq<Bundle>)
    requires k < |bundles|
    ensures |r| == |bundles|
  {
    var a := FirstActive(bundles);
    var retired := if a.Some? && a.value != k then bundles[a.value := Retire(bundles[a.value], now)] else bundles;
    retired[k := MadeActive(retired[k], now)]
  }

  function WithBundles(s: State, bundles: seq<Bundle>): Outcome { Done(s.(bundles := bundles)) }

  // ---------------------------------------------------------------- rollouts

  function FirstOpen(rollouts: seq<Rollout>): (k: Option<nat>)
    ensures k.Some? ==> k.value < |rollouts| && !rollouts[k.value].done
    ensures k.None? ==> forall i :: 0 <= i < |rollouts| ==> rollouts[i].done
  {
    if rollouts == [] then None
    else if !rollouts[|rollouts| - 1].done then Some(|rollouts| - 1)
    else FirstOpen(rollouts[..|rollouts| - 1])
  }

  predicate Follows(from: Stage, to: Stage) {
    match from
    case Shadow => to.Canary? || to.Paused? || to.Completed?
    case Canary => to.Shadow? || to.Enforce? || to.Paused? || to.Completed?
    case Paused => to.Shadow? || to.Canary? || to.Completed?
    case _ => false
  }

  predicate Canaries(traffic: Option<int>) { traffic.Some? && 1 <= traffic.value <= 99 }

  /** The rollout in its new stage; a final stage completes it. */
  function Moved(r: Rollout, stage: Stage, traffic: Option<int>, now: int): Rollout
    requires stage.Canary? ==> Canaries(traffic)
  {
    match stage
    case Canary => r.(stage := Canary, traffic := traffic.value)
    case Shadow => r.(stage := Shadow, traffic := 0)
    case Paused => r.(stage := Paused, traffic := 0)
    case Enforce => r.(stage := Enforce, traffic := 100, done := true, completedAt := Some(now))
    case Completed => r.(stage := Completed, traffic := 0, done := true, completedAt := Some(now))
  }

  function StageEvent(k: nat, r: Rollout): Event { Event("policy.rollout.advanced", k, r.bundle, r.stage, r.traffic, r.done) }

  /** queue_outbox_event with a key: an equal event is kept, a different one is a conflict. */
  function Queue(outbox: map<Key, Event>, key: Key, event: Event): Option<map<Key, Event>> {
    if key !in outbox then Some(outbox[key := event])
    else if outbox[key] == event then Some(outbox)
    else None
  }

  function Begin(s: State, bundle: nat, stage: Stage, traffic: int): Outcome {
    if FirstOpen(s.rollouts).Some? then Refused(AlreadyActive)
    else if bundle >= |s.bundles| || !s.bundles[bundle].status.Approved? then Refused(NotApproved)
    else if stage.Shadow? && traffic != 0 then Refused(BadTraffic)
    else if stage.Canary? && !(1 <= traffic <= 99) then Refused(BadTraffic)
    else
      var k := |s.rollouts|;
      var r := Rollout(bundle, FirstActive(s.bundles), stage, traffic, false, None);
      match Queue(s.outbox, Created(k), Event("policy.rollout.created", k, bundle, stage, traffic, false))
      case None => Refused(Conflict)
      case Some(outbox) => Done(s.(rollouts := s.rollouts + [r], outbox := outbox))
  }

  function Move(s: State, k: nat, stage: Stage, traffic: Option<int>, now: int): Outcome
    requires k < |s.rollouts|
  {
    var r := s.rollouts[k];
    if r.done || !Follows(r.stage, stage) then Refused(NotAllowed)
    else if stage.Canary? && !Canaries(traffic) then Refused(BadTraffic)
    else if stage.Enforce? && (r.bundle >= |s.bundles| || !s.bundles[r.bundle].status.Approved?) then Refused(NotApproved)
    else
      var moved := Moved(r, stage, traffic, now);
      match Queue(s.outbox, Staged(k, stage, moved.traffic), StageEvent(k, moved))
      case None => Refused(Conflict)
      case Some(outbox) =>
        Done(State(if stage.Enforce? then Activated(s.bundles, r.bundle, now) else s.bundles, s.rollouts[k := moved], outbox))
  }

  /** One request. The API only lets a rollout begin in shadow or canary. */
  function Do(s: State, op: Operation): Outcome {
    match op
    case Propose(author) => WithBundles(s, s.bundles + [Bundle(author, Draft, None, None, None)])
    case Submit(k) =>
      if k >= |s.bundles| then Refused(NotFound)
      else if !s.bundles[k].status.Draft? then Refused(WrongStatus)
      else WithBundles(s, s.bundles[k := s.bundles[k].(status := Pending)])
    case Approve(k, subject, delegated) =>
      if k >= |s.bundles| then Refused(NotFound)
      else if !s.bundles[k].status.Pending? then Refused(WrongStatus)
      else if !delegated then Refused(NotDelegated)
      else if s.bundles[k].createdBy == subject && subject != "development" then Refused(SameIdentity)
      else WithBundles(s, s.bundles[k := s.bundles[k].(status := Approved, approvedBy := Some(subject))])
    case Activate(k, now) =>
      if k >= |s.bundles| then Refused(NotFound)
      else if !s.bundles[k].status.Approved? then Refused(WrongStatus)
      else WithBundles(s, Activated(s.bundles, k, now))
    case Rollback(k, now) =>
      if k >= |s.bundles| then Refused(NotFound)
      else if !s.bundles[k].status.Approved? && !s.bundles[k].status.Retired? then Refused(WrongStatus)
      else WithBundles(s, Activated(s.bundles, k, now))
    case Create(k, stage, traffic) => if stage.Shadow? || stage.Canary? then Begin(s, k, stage, traffic) else Refused(NotAllowed)
    case Advance(k, stage, traffic, now) => if k < |s.rollouts| then Move(s, k, stage, traffic, now) else Refused(NotFound)
  }

  function FaultOf(out: Outcome): Option<Fault> { if out.Done? then None else Some(out.fault) }

  function After(s: State, op: Operation): State { if Do(s, op).Done? then Do(s, op).state else s }

  function Exec(s: State, ops: seq<Operation>): State
    decreases |ops|
  {
    if ops == [] then s else Exec(After(s, ops[0]), ops[1..])
  }

  // ---------------------------------------------------------------- what the operations leave, in the tables' own terms

  /** Bundle k is active as of now; the one that was active before has retired, and the others are as they were. */
  ghost predicate Switched(before: seq<Bundle>, after: seq<Bundle>, k: nat, now: int) {
    && |after| == |before| && k < |before|
    && after[k] == Bundle(before[k].createdBy, Active, before[k].approvedBy, Some(now), None)
    && (forall i :: 0 <= i < |before| && i != k && before[i].status != Active ==> after[i] == before[i])
    && ((forall i, j :: 0 <= i < j < |before| ==> !(before[i].status == Active && before[j].status == Active)) ==>
          forall i :: 0 <= i < |before| && i != k && before[i].status == Active ==>
            after[i] == Bundle(before[i].createdBy, Retired, before[i].approvedBy, before[i].activatedAt, Some(now)))
  }

  /** The bundle a rollout is compared with is an active one, if there is any. */
  ghost predicate BaselineOk(bundles: seq<Bundle>, baseline: Option<nat>) {
    match baseline
    case None => forall i :: 0 <= i < |bundles| ==> bundles[i].status != Active
    case Some(b) => b < |bundles| && bundles[b].status == Active
  }

  /** A stage is entered from these: shadow from canary or paused, canary from shadow or paused, and so on. */
  ghost predicate LeadsTo(from: Stage, to: Stage) {
    match to
    case Shadow => from in {Canary, Paused}
    case Canary => from in {Shadow, Paused}
    case Paused => from in {Shadow, Canary}
    case Enforce => from == Canary
    case Completed => from in {Shadow, Canary, Paused}
  }

  /** What a rollout holds once it has entered a stage. */
  ghost predicate Entered(before: Rollout, after: Rollout, stage: Stage, traffic: Option<int>, now: int) {
    && after.bundle == before.bundle && after.baseline == before.baseline && after.stage == stage
    && (stage == Canary ==> traffic == Some(after.traffic))
    && (stage in {Shadow, Paused, Completed} ==> after.traffic == 0)
    && (stage == Enforce ==> after.traffic == 100)
    && (if stage in {Enforce, Completed} then after.done && after.completedAt == Some(now) else after.done == before.done && after.completedAt == before.completedAt)
  }

  /** A proposed bundle is a draft of its author's that nobody approved, behind those there are. */
  lemma ProposeLeaves(s: State, author: string)
    ensures var out := Do(s, Propose(author));
      && out.Done? && out.state.rollouts == s.rollouts && out.state.outbox == s.outbox && |out.state.bundles| == |s.bundles| + 1 && s.bundles <= out.state.bundles
      && var b := out.state.bundles[|s.bundles|];
         b.createdBy == author && b.status == Draft && b.approvedBy == None && b.activatedAt == None && b.retiredAt == None
  {}

  /** The first thing that is wrong with a request to advance a rollout. */
  ghost predicate AdvanceFault(s: State, k: nat, stage: Stage, traffic: Option<int>, fault: Option<Fault>) {
    if k >= |s.rollouts| then fault == Some(NotFound)
    else
      var r := s.rollouts[k];
      if r.done || !LeadsTo(r.stage, stage) then fault == Some(NotAllowed)
      else if stage == Canary && (traffic.None? || traffic.value < 1 || 99 < traffic.value) then fault == Some(BadTraffic)
      else if stage == Enforce && (r.bundle >= |s.bundles| || s.bundles[r.bundle].status != Approved) then fault == Some(NotApproved)
      else fault.None? || fault == Some(Conflict)
  }

  /** The rollout is in its stage, its bundle active if it is enforced, and the event queued; everything else is as it was. */
  ghost predicate Advanced(s: State, t: State, k: nat, stage: Stage, traffic: Option<int>, now: int) {
    && k < |s.rollouts| && |t.rollouts| == |s.rollouts| && Entered(s.rollouts[k], t.rollouts[k], stage, traffic, now)
    && (forall i :: 0 <= i < |s.rollouts| && i != k ==> t.rollouts[i] == s.rollouts[i])
    && (if stage == Enforce then Switched(s.bundles, t.bundles, s.rollouts[k].bundle, now) else t.bundles == s.bundles)
    && var key, r := Staged(k, stage, t.rollouts[k].traffic), t.rollouts[k];
       t.outbox == s.outbox[key := Event("policy.rollout.advanced", k, r.bundle, stage, r.traffic, r.done)]
  }

  lemma ActivatedSwitches(bundles: seq<Bundle>, k: nat, now: int)
    requires k < |bundles|
    ensures Switched(bundles, Activated(bundles, k, now), k, now)
  {}

  /** Which fault an advance has, and what an accepted one leaves. */
  lemma AdvanceLeaves(s: State, k: nat, stage: Stage, traffic: Option<int>, now: int)
    ensures var out := Do(s, Advance(k, stage, traffic, now));
      && AdvanceFault(s, k, stage, traffic, FaultOf(out))
      && (out.Done? ==> Advanced(s, out.state, k, stage, traffic, now))
  {
    if k < |s.rollouts| && s.rollouts[k].bundle < |s.bundles| { ActivatedSwitches(s.bundles, s.rollouts[k].bundle, now); }
  }

  // ---------------------------------------------------------------- the tables as an object

  class PolicyStore {
    var bundles: seq<Bundle>
    var rollouts: seq<Rollout>
    var outbox: map<Key, Event>

    ghost function Value(): State
      reads this
    {
      State(bundles, rollouts, outbox)
    }

    constructor ()
      ensures Value() == State([], [], map[])
    {
      bundles, rollouts, outbox := [], [], map[];
    }

    method SubmitBundle(k: nat) returns (fault: Option<Fault>)
      modifies this
      ensures Value() == After(old(Value()), Submit(k)) && fault == FaultOf(Do(old(Value()), Submit(k)))
      ensures fault == if k >= |old(bundles)| then Some(NotFound) else if old(bundles)[k].status != Draft then Some(WrongStatus) else None
      ensures fault.None? ==> bundles == old(bundles)[k := old(bundles)[k].(status := Pending)]
      ensures rollouts == old(rollouts) && outbox == old(outbox) && (fault.Some? ==> bundles == old(bundles))
    {
      if k >= |bundles| { return Some(NotFound); }
      if !bundles[k].status.Draft? { return Some(WrongStatus); }
      bundles := bundles[k := bundles[k].(status := Pending)];
      fault := None;
    }

    method ApproveBundle(k: nat, subject: string, delegated: bool) returns (fault: Option<Fault>)
      modifies this
      ensures Value() == After(old(Value()), Approve(k, subject, delegated))
      ensures fault == FaultOf(Do(old(Value()), Approve(k, subject, delegated)))
      ensures k >= |old(bundles)| <==> fault == Some(NotFound)
      ensures k < |old(bundles)| ==>
        var b := old(bundles)[k];
        && (fault == Some(WrongStatus) <==> b.status != Pending)
        && (fault == Some(NotDelegated) <==> b.status == Pending && !delegated)
        && (fault == Some(SameIdentity) <==> b.status == Pending && delegated && b.createdBy == subject && subject != "development")
        && (fault == None <==> b.status == Pending && delegated && (b.createdBy != subject || subject == "development"))
        && bundles == if fault.None? then old(bundles)[k := b.(status := Approved, approvedBy := Some(subject))] else old(bundles)
      ensures rollouts == old(rollouts) && outbox == old(outbox)
    {
      if k >= |bundles| { return Some(NotFound); }
      var bundle := bundles[k];
      if !bundle.status.Pending? { return Some(WrongStatus); }
      if !delegated { return Some(NotDelegated); }
      if bundle.createdBy == subject && subject != "development" { return Some(SameIdentity); }
      bundles := bundles[k := bundle.(status := Approved, approvedBy := Some(subject))];
      fault := None;
    }

    /** _activate_policy_bundle and _activate_bundle. */
    method SetActive(k: nat, now: int)
      requires k < |bundles|
      modifies this`bundles
      ensures bundles == Activated(old(bundles), k, now) && Switched(old(bundles), bundles, k, now)
    {
      var active := FirstActive(bundles);
      if active.Some? && active.value != k {
        bundles := bundles[active.value := bundles[active.value].(status := Retired, retiredAt := Some(now))];
      }
      bundles := bundles[k := bundles[k].(status := Active, activatedAt := Some(now), retiredAt := None)];
    }

    method ActivateBundle(k: nat, now: int) returns (fault: Option<Fault>)
      modifies this
      ensures Value() == After(old(Value()), Activate(k, now)) && fault == FaultOf(Do(old(Value()), Activate(k, now)))
      ensures k >= |old(bundles)| <==> fault == Some(NotFound)
      ensures k < |old(bundles)| ==> var b := old(bundles)[k]; (fault == None <==> b.status == Approved) && (fault.Some? ==> fault == Some(WrongStatus))
      ensures if fault.None? then Switched(old(bundles), bundles, k, now) else bundles == old(bundles)
      ensures rollouts == old(rollouts) && outbox == old(outbox)
    {
      if k >= |bundles| { return Some(NotFound); }
      if !bundles[k].status.Approved? { return Some(WrongStatus); }
      SetActive(k, now);
      fault := None;
    }

    method RollbackBundle(k: nat, now: int) returns (fault: Option<Fault>)
      modifies this
      ensures Value() == After(old(Value()), Rollback(k, now)) && fault == FaultOf(Do(old(Value()), Rollback(k, now)))
      ensures k >= |old(bundles)| <==> fault == Some(NotFound)
      ensures k < |old(bundles)| ==> var b := old(bundles)[k]; (fault == None <==> b.status == Approved || b.status == Retired) && (fault.Some? ==> fault == Some(WrongStatus))
      ensures if fault.None? then Switched(old(bundles), bundles, k, now) else bundles == old(bundles)
      ensures rollouts == old(rollouts) && outbox == old(outbox)
    {
      if k >= |bundles| { return Some(NotFound); }
      if !bundles[k].status.Approved? && !bundles[k].status.Retired? { return Some(WrongStatus); }
      SetActive(k, now);
      fault := None;
    }

    method CreateRollout(k: nat, stage: Stage, traffic: int) returns (fault: Option<Fault>)
      requires stage.Shadow? || stage.Canary?
      modifies this
      ensures Value() == After(old(Value()), Create(k, stage, traffic)) && fault == FaultOf(Do(old(Value()), Create(k, stage, traffic)))
      ensures fault == Some(AlreadyActive) <==> exists i :: 0 <= i < |old(rollouts)| && !old(rollouts)[i].done
      ensures fault == Some(NotApproved) <==>
        (forall i :: 0 <= i < |old(rollouts)| ==> old(rollouts)[i].done) && (k >= |old(bundles)| || old(bundles)[k].status != Approved)
      ensures fault == Some(BadTraffic) <==>
        && (forall i :: 0 <= i < |old(rollouts)| ==> old(rollouts)[i].done) && k < |old(bundles)| && old(bundles)[k].status == Approved
        && (if stage == Shadow then traffic != 0 else traffic < 1 || 99 < traffic)
      ensures fault.Some? ==> fault.value in {AlreadyActive, NotApproved, BadTraffic, Conflict} && Value() == old(Value())
      ensures bundles == old(bundles)
      ensures fault.None? ==>
        && |rollouts| == |old(rollouts)| + 1 && rollouts[..|old(rollouts)|] == old(rollouts) && rollouts[|old(rollouts)|].bundle == k
        && rollouts[|old(rollouts)|].stage == stage && rollouts[|old(rollouts)|].traffic == traffic && !rollouts[|old(rollouts)|].done
        && BaselineOk(old(bundles), rollouts[|old(rollouts)|].baseline)
        && Created(|old(rollouts)|) in outbox && outbox[Created(|old(rollouts)|)].stage == stage && outbox[Created(|old(rollouts)|)].bundle == k
        && outbox[Created(|old(rollouts)|)].kind == "policy.rollout.created" && outbox[Created(|old(rollouts)|)].traffic == traffic
    {
      if FirstOpen(rollouts).Some? { return Some(AlreadyActive); }
      if k >= |bundles| || !bundles[k].status.Approved? { return Some(NotApproved); }
      if stage.Shadow? && traffic != 0 { return Some(BadTraffic); }
      if stage.Canary? && !(1 <= traffic <= 99) { return Some(BadTraffic); }
      var id := |rollouts|;
      var queued := Queue(outbox, Created(id), Event("policy.rollout.created", id, k, stage, traffic, false));
      if queued.None? { return Some(Conflict); }
      rollouts := rollouts + [Rollout(k, FirstActive(bundles), stage, traffic, false, None)];
      outbox := queued.value;
      fault := None;
    }

    method AdvanceRollout(k: nat, stage: Stage, traffic: Option<int>, now: int) returns (fault: Option<Fault>)
      modifies this
      ensures Value() == After(old(Value()), Advance(k, stage, traffic, now))
      ensures fault == FaultOf(Do(old(Value()), Advance(k, stage, traffic, now)))
    {
      if k >= |rollouts| { return Some(NotFound); }
      var r := rollouts[k];
      if r.done || !Follows(r.stage, stage) { return Some(NotAllowed); }
      if stage.Canary? {
        if !Canaries(traffic) { return Some(BadTraffic); }
        r := r.(traffic := traffic.value);
      } else if stage.Shadow? || stage.Paused? {
        r := r.(traffic := 0);
      } else {
        r := r.(traffic := if stage.Enforce? then 100 else 0, done := true, completedAt := Some(now));
      }
      if stage.Enforce? && (r.bundle >= |bundles| || !bundles[r.bundle].status.Approved?) { return Some(NotApproved); }
      r := r.(stage := stage);
      var queued := Queue(outbox, Staged(k, stage, r.traffic), StageEvent(k, r));
      if queued.None? { return Some(Conflict); }
      if stage.Enforce? { SetActive(r.bundle, now); }
      rollouts, outbox := rollouts[k := r], queued.value;
      fault := None;
    }
  }

  // ---------------------------------------------------------------- what every reachable state keeps

  /** Approved by someone other than the creator, or in development. */
  predicate Separated(b: Bundle) {
    b.approvedBy.Some? && (b.approvedBy.value != b.createdBy || b.approvedBy.value == "development")
  }

  predicate BundleOk(b: Bundle) {
    && (b.status.Approved? || b.status.Active? || b.status.Retired? ==> Separated(b))
    && (b.activatedAt.Some? ==> Separated(b))
    && (b.status.Active? || b.status.Retired? ==> b.activatedAt.Some?)
  }

  /** The stage fixes traffic and status. */
  predicate StageOk(r: Rollout) {
    match r.stage
    case Shadow => r.traffic == 0 && !r.done
    case Paused => r.traffic == 0 && !r.done
    case Canary => 1 <= r.traffic <= 99 && !r.done
    case Enforce => r.traffic == 100 && r.done
    case Completed => r.traffic == 0 && r.done
  }

  lemma StageOkExactlyWhen(r: Rollout)
    ensures StageOk(r) <==>
      && (r.done <==> r.stage in {Enforce, Completed})
      && (if r.stage == Canary then 1 <= r.traffic <= 99 else r.traffic == if r.stage == Enforce then 100 else 0)
  {}

  predicate FinalStage(stage: Stage) { stage.Enforce? || stage.Completed? }

  /** The event a stage key stands for. */
  ghost predicate EventOk(rollouts: seq<Rollout>, key: Key, event: Event) {
    && key.rollout < |rollouts|
    && (key.Staged? ==>
          event == Event("policy.rollout.advanced", key.rollout, rollouts[key.rollout].bundle, key.stage, key.traffic, FinalStage(key.stage)))
  }

  ghost predicate BundlesOk(bundles: seq<Bundle>) {
    && (forall i :: 0 <= i < |bundles| ==> BundleOk(bundles[i]))
    && (forall i, j :: 0 <= i < j < |bundles| ==> !(bundles[i].status.Active? && bundles[j].status.Active?))
  }

  ghost predicate RolloutsOk(rollouts: seq<Rollout>) {
    && (forall i :: 0 <= i < |rollouts| ==> StageOk(rollouts[i]))
    && (forall i, j :: 0 <= i < j < |rollouts| ==> rollouts[i].done || rollouts[j].done)
  }

  ghost predicate OutboxOk(rollouts: seq<Rollout>, outbox: map<Key, Event>) {
    forall key :: key in outbox ==> EventOk(rollouts, key, outbox[key])
  }

  ghost predicate Inv(s: State) {
    BundlesOk(s.bundles) && RolloutsOk(s.rollouts) && OutboxOk(s.rollouts, s.outbox)
  }

  lemma ActivatedOk(bundles: seq<Bundle>, k: nat, now: int)
    requires BundlesOk(bundles) && k < |bundles| && (bundles[k].status.Approved? || bundles[k].status.Retired?)
    ensures BundlesOk(Activated(bundles, k, now))
    ensures Activated(bundles, k, now)[k].status.Active?
  {}

  lemma MovedOk(r: Rollout, stage: Stage, traffic: Option<int>, now: int)
    requires StageOk(r) && !r.done && Follows(r.stage, stage) && (stage.Canary? ==> Canaries(traffic))
    ensures StageOk(Moved(r, stage, traffic, now)) && Moved(r, stage, traffic, now).bundle == r.bundle
    ensures Moved(r, stage, traffic, now).done == FinalStage(stage)
  {}

  lemma QueueKeeps(rollouts: seq<Rollout>, outbox: map<Key, Event>, key: Key, event: Event)
    requires OutboxOk(rollouts, outbox) && EventOk(rollouts, key, event)
    ensures key.Staged? ==> Queue(outbox, key, event).Some?
    ensures Queue(outbox, key, event).Some? ==> OutboxOk(rollouts, Queue(outbox, key, event).value)
  {}

  lemma MoveKeepsInv(s: State, k: nat, stage: Stage, traffic: Option<int>, now: int)
    requires Inv(s) && k < |s.rollouts|
    ensures Move(s, k, stage, traffic, now) != Refused(Conflict)
    ensures Move(s, k, stage, traffic, now).Done? ==> Inv(Move(s, k, stage, traffic, now).state)
  {
    var r := s.rollouts[k];
    if !r.done && Follows(r.stage, stage) && (stage.Canary? ==> Canaries(traffic)) {
      var moved := Moved(r, stage, traffic, now);
      var rollouts := s.rollouts[k := moved];
      MovedOk(r, stage, traffic, now);
      assert OutboxOk(rollouts, s.outbox) by {
        forall key | key in s.outbox ensures EventOk(rollouts, key, s.outbox[key]) {
          assert EventOk(s.rollouts, key, s.outbox[key]);
        }
      }
      QueueKeeps(rollouts, s.outbox, Staged(k, stage, moved.traffic), StageEvent(k, moved));
      if stage.Enforce? && r.bundle < |s.bundles| && s.bundles[r.bundle].status.Approved? {
        ActivatedOk(s.bundles, r.bundle, now);
      }
    }
  }

  lemma BeginKeepsInv(s: State, bundle: nat, stage: Stage, traffic: int)
    requires Inv(s) && (stage.Shadow? || stage.Canary?)
    ensures Begin(s, bundle, stage, traffic) != Refused(Conflict)
    ensures Begin(s, bundle, stage, traffic).Done? ==> Inv(Begin(s, bundle, stage, traffic).state)
  {
    var k := |s.rollouts|;
    forall key | key in s.outbox ensures key != Created(k) {
      assert EventOk(s.rollouts, key, s.outbox[key]);
    }
    var out := Begin(s, bundle, stage, traffic);
    if out.Done? {
      forall key | key in out.state.outbox ensures EventOk(out.state.rollouts, key, out.state.outbox[key]) {
        if key != Created(k) { assert EventOk(s.rollouts, key, s.outbox[key]); }
      }
    }
  }

  /** Every operation keeps the invariant, and none ever meets an outbox conflict. */
  lemma StepKeepsInv(s: State, op: Operation)
    requires Inv(s)
    ensures Inv(After(s, op)) && Do(s, op) != Refused(Conflict)
  {
    match op
    case Activate(k, now) => if k < |s.bundles| && s.bundles[k].status.Approved? { ActivatedOk(s.bundles, k, now); }
    case Rollback(k, now) =>
      if k < |s.bundles| && (s.bundles[k].status.Approved? || s.bundles[k].status.Retired?) { ActivatedOk(s.bundles, k, now); }
    case Create(k, stage, traffic) => if stage.Shadow? || stage.Canary? { BeginKeepsInv(s, k, stage, traffic); }
    case Advance(k, stage, traffic, now) => if k < |s.rollouts| { MoveKeepsInv(s, k, stage, traffic, now); }
    case _ =>
  }

  /**
   Over all runs at most one bundle and one rollout is active, every bundle ever active was approved by another
   identity (or in development), and a rollout's stage fixes its traffic and status.
   */
  lemma {:induction false} RunKeepsInv(s: State, ops: seq<Operation>)
    requires Inv(s)
    ensures Inv(Exec(s, ops))
    decreases |ops|
  {
    if ops != [] {
      StepKeepsInv(s, ops[0]);
      RunKeepsInv(After(s, ops[0]), ops[1..]);
    }
  }

  /** From empty tables, over every run. */
  lemma EveryRun(ops: seq<Operation>)
    ensures var t := Exec(State([], [], map[]), ops);
      && (forall i, j :: 0 <= i < j < |t.bundles| ==> !(t.bundles[i].status.Active? && t.bundles[j].status.Active?))
      && (forall i, j :: 0 <= i < j < |t.rollouts| ==> t.rollouts[i].done || t.rollouts[j].done)
      && (forall i :: 0 <= i < |t.bundles| && (t.bundles[i].activatedAt.Some? || t.bundles[i].status in {Approved, Active, Retired}) ==>
            t.bundles[i].approvedBy.Some? && (t.bundles[i].approvedBy.value == t.bundles[i].createdBy ==> t.bundles[i].approvedBy.value == "development"))
      && (forall i :: 0 <= i < |t.rollouts| ==> StageOk(t.rollouts[i]))
  {
    RunKeepsInv(State([], [], map[]), ops);
  }

  /** A completed rollout never changes again, and no rollout changes its bundle. */
  lemma {:induction false} CompletedNeverMoves(s: State, ops: seq<Operation>, k: nat)
    requires k < |s.rollouts|
    ensures k < |Exec(s, ops).rollouts| && Exec(s, ops).rollouts[k].bundle == s.rollouts[k].bundle
    ensures s.rollouts[k].done ==> Exec(s, ops).rollouts[k] == s.rollouts[k]
    decreases |ops|
  {
    if ops != [] {
      CompletedNeverMoves(After(s, ops[0]), ops[1..], k);
    }
  }

  /** Approved, or past approval. */
  predicate Settled(b: Bundle) { b.approvedBy.Some? && !b.status.Pending? && !b.status.Draft? }

  predicate SameApproval(a: Bundle, b: Bundle) { Settled(b) && b.approvedBy == a.approvedBy && b.createdBy == a.createdBy }

  lemma ActivatedKeepsApprovals(bundles: seq<Bundle>, k: nat, now: int, i: nat)
    requires k < |bundles| && i < |bundles| && Settled(bundles[i])
    ensures SameApproval(bundles[i], Activated(bundles, k, now)[i])
  {}

  lemma StepKeepsApproval(s: State, op: Operation, i: nat)
    requires i < |s.bundles| && Settled(s.bundles[i])
    ensures i < |After(s, op).bundles| && SameApproval(s.bundles[i], After(s, op).bundles[i])
  {
    match op
    case Activate(k, now) => if k < |s.bundles| { ActivatedKeepsApprovals(s.bundles, k, now, i); }
    case Rollback(k, now) => if k < |s.bundles| { ActivatedKeepsApprovals(s.bundles, k, now, i); }
    case Advance(k, _, _, now) =>
      if k < |s.rollouts| && s.rollouts[k].bundle < |s.bundles| { ActivatedKeepsApprovals(s.bundles, s.rollouts[k].bundle, now, i); }
    case _ =>
  }

  /** An approval, once given, stays with the bundle through any run, and so does the creator. */
  lemma {:induction false} ApprovalStays(s: State, ops: seq<Operation>, i: nat)
    requires i < |s.bundles| && s.bundles[i].approvedBy != None && s.bundles[i].status in {Approved, Active, Retired}
    ensures i < |Exec(s, ops).bundles| && SameApproval(s.bundles[i], Exec(s, ops).bundles[i])
    ensures Exec(s, ops).bundles[i].approvedBy == s.bundles[i].approvedBy && Exec(s, ops).bundles[i].createdBy == s.bundles[i].createdBy
    decreases |ops|
  {
    if ops != [] {
      StepKeepsApproval(s, ops[0], i);
      ApprovalStays(After(s, ops[0]), ops[1..], i);
    }
  }

  // ---------------------------------------------------------------- which stages lead where

  /**
   An advance is accepted exactly from an active rollout in a stage that leads to the one asked for, with a traffic from
   1 to 99 for a canary and an approved bundle for enforcement.
   */
  lemma AdvanceExactlyWhen(s: State, k: nat, stage: Stage, traffic: Option<int>, now: int)
    requires Inv(s) && k < |s.rollouts|
    ensures Do(s, Advance(k, stage, traffic, now)).Done? <==>
      && !s.rollouts[k].done && LeadsTo(s.rollouts[k].stage, stage)
      && (stage == Canary ==> traffic.Some? && 1 <= traffic.value <= 99)
      && (stage == Enforce ==> s.rollouts[k].bundle < |s.bundles| && s.bundles[s.rollouts[k].bundle].status == Approved)
  {
    MoveKeepsInv(s, k, stage, traffic, now);
  }

  /** The step of a run at which an enforced rollout was enforced: it was in canary, and its bundle approved, right before. */
  ghost predicate EnforcedAt(s: State, ops: seq<Operation>, k: nat, j: nat) {
    && j < |ops| && ops[j].Advance? && ops[j].rollout == k && ops[j].stage == Enforce
    && var u, v := Exec(s, ops[..j]), Exec(s, ops[..j + 1]);
       && k < |u.rollouts| && u.rollouts[k].stage == Canary && !u.rollouts[k].done && u.rollouts[k].bundle < |u.bundles|
       && u.bundles[u.rollouts[k].bundle].status == Approved
       && k < |v.rollouts| && v.rollouts[k].stage == Enforce && v.rollouts[k].bundle == u.rollouts[k].bundle
       && |v.bundles| == |u.bundles| && v.bundles[u.rollouts[k].bundle].status == Active
  }

  lemma {:induction false} EnforcedSince(s: State, ops: seq<Operation>, k: nat) returns (j: nat)
    requires k < |Exec(s, ops).rollouts| && Exec(s, ops).rollouts[k].stage == Enforce
    requires k < |s.rollouts| ==> s.rollouts[k].stage != Enforce
    ensures EnforcedAt(s, ops, k, j)
    decreases |ops|
  {
    var u := After(s, ops[0]);
    if k < |u.rollouts| && u.rollouts[k].stage == Enforce {
      j := 0;
      assert ops[..0] == [] && ops[..1] == [ops[0]] && ops[..1][1..] == [];
      assert Exec(s, ops[..1]) == u;
      EnforcedNow(s, ops[0], k);
    } else {
      j := EnforcedSince(u, ops[1..], k);
      assert ops[..j + 1][1..] == ops[1..][..j] && ops[..j + 2][1..] == ops[1..][..j + 1];
      j := j + 1;
    }
  }

  lemma EnforcedNow(s: State, op: Operation, k: nat)
    requires k < |After(s, op).rollouts| && After(s, op).rollouts[k].stage == Enforce
    requires k < |s.rollouts| ==> s.rollouts[k].stage != Enforce
    ensures op.Advance? && op.rollout == k < |s.rollouts| && op.stage == Enforce && Do(s, op).Done?
    ensures s.rollouts[k].stage == Canary && !s.rollouts[k].done && s.rollouts[k].bundle < |s.bundles|
    ensures s.bundles[s.rollouts[k].bundle].status == Approved
    ensures var t := After(s, op);
      && t.rollouts[k].bundle == s.rollouts[k].bundle && |t.bundles| == |s.bundles| && t.bundles[s.rollouts[k].bundle].status == Active
  {}

  /** From empty tables, over every run: an enforced rollout was in canary, with its bundle approved, right before it was enforced. */
  lemma EnforcedWasCanary(ops: seq<Operation>, k: nat) returns (j: nat)
    requires k < |Exec(State([], [], map[]), ops).rollouts| && Exec(State([], [], map[]), ops).rollouts[k].stage == Enforce
    ensures EnforcedAt(State([], [], map[]), ops, k, j)
  {
    j := EnforcedSince(State([], [], map[]), ops, k);
  }
}
