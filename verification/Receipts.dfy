/**
 Runtime decision receipts: issued once per idempotency key, stored with the digest of their manifest,
 then signed by workers that claim, fail, retry and recover them.
 */
module Receipts {
  import opened Options
  import opened Numbers
  import opened JsonStrings
  import opened CanonicalJson
  import opened JsonText
  import opened JsonLaws
  import opened EvidencePackages

  datatype Status = Unsigned | Pending | Signing | Signed | Failed

  /** A row. `key` is the tenant's idempotency key; `assurance` is what reading assurance_json gives. */
  datatype Receipt = Receipt(
    key: Option<Text>, requestSha: Text, manifestJson: string, manifestSha: Text,
    status: Status, attempts: nat, claimedAt: int, availableAt: int, assurance: Json)

  datatype Settings = Settings(maxAttempts: nat, claimTimeout: nat)

  // ---------------------------------------------------------------- row updates

  /** The assurance a receipt is stored with: pending when it is to be signed under a profile, unsigned otherwise. */
  function FirstAssurance(n: Names, profile: Option<Text>): Json {
    Obj(Member(n.status, Str(if profile.Some? then n.pending else n.unsigned),
        Member(n.profile, if profile.Some? then Str(profile.value) else Null,
        Member(n.kind, Str(n.none), Member(n.keyId, Null, Member(n.signedAt, Null, NoMembers))))))
  }

  function Issued(n: Names, h: Hash, key: Option<Text>, request: Json, manifest: Json, profile: Option<Text>, now: int): Receipt {
    Receipt(key, DigestOf(h, request), Canonical(manifest), DigestOf(h, manifest),
            if profile.Some? then Pending else Unsigned, 0, now, now, Normal(FirstAssurance(n, profile)))
  }

  predicate Stale(r: Receipt, now: int, s: Settings) {
    r.status.Signing? && r.claimedAt < now - s.claimTimeout && r.attempts < s.maxAttempts
  }

  function Recovered(r: Receipt, now: int): Receipt { r.(status := Pending, availableAt := now) }

  function Claimed(r: Receipt, now: int): Receipt { r.(status := Signing, claimedAt := now, attempts := r.attempts + 1) }

  /** The assurance is made from the manifest as it is read back from the row. */
  function SignedBy(n: Names, h: Hash, r: Receipt, manifest: Json, signature: Option<Signature>): Receipt {
    r.(status := if signature.Some? then Signed else Unsigned, assurance := Normal(SignManifest(n, h, manifest, signature)))
  }

  function FailedAt(r: Receipt, now: int, s: Settings): Receipt {
    if r.attempts >= s.maxAttempts then r.(status := Failed)
    else r.(status := Pending, availableAt := now + Backoff(r.attempts))
  }

  /** The row as an object, with the statements that change it. */
  class ReceiptRow {
    const key: Option<Text>
    const requestSha: Text
    const manifestJson: string
    const manifestSha: Text
    var status: Status
    var attempts: nat
    var claimedAt: int
    var availableAt: int
    var assurance: Json

    ghost function Value(): Receipt
      reads this
    {
      Receipt(key, requestSha, manifestJson, manifestSha, status, attempts, claimedAt, availableAt, assurance)
    }

    constructor (n: Names, h: Hash, key: Option<Text>, request: Json, manifest: Json, profile: Option<Text>, now: int)
      ensures Value() == Issued(n, h, key, request, manifest, profile, now)
      ensures this.key == key && requestSha == DigestOf(h, request) && manifestJson == Canonical(manifest) && manifestSha == DigestOf(h, manifest)
      ensures status == (if profile.Some? then Pending else Unsigned) && attempts == 0 && availableAt == now
    {
      this.key, requestSha := key, DigestOf(h, request);
      manifestJson, manifestSha := Canonical(manifest), DigestOf(h, manifest);
      status := if profile.Some? then Pending else Unsigned;
      attempts, claimedAt, availableAt := 0, now, now;
      assurance := Normal(FirstAssurance(n, profile));
    }

    method Recover(now: int, s: Settings)
      modifies this
      ensures Value() == if Stale(old(Value()), now, s) then Recovered(old(Value()), now) else old(Value())
      ensures old(status) == Signing && now - old(claimedAt) > s.claimTimeout && old(attempts) < s.maxAttempts ==> status == Pending && availableAt == now
      ensures !(old(status) == Signing && now - old(claimedAt) > s.claimTimeout && old(attempts) < s.maxAttempts) ==> Value() == old(Value())
    {
      if status.Signing? && claimedAt < now - s.claimTimeout && attempts < s.maxAttempts {
        status, availableAt := Pending, now;
      }
    }

    /** The conditional update: it changes the row only while the status is still pending. */
    method Claim(now: int) returns (won: bool)
      modifies this
      ensures won == old(status).Pending?
      ensures Value() == if won then Claimed(old(Value()), now) else old(Value())
      ensures won ==> status == Signing && claimedAt == now && attempts == old(attempts) + 1 && availableAt == old(availableAt)
    {
      won := status.Pending?;
      if won { status, claimedAt, attempts := Signing, now, attempts + 1; }
    }

    method Sign(n: Names, h: Hash, signature: Option<Signature>) returns (read: bool)
      modifies this
      ensures read == Loads(manifestJson).Some?
      ensures Value() == if read then SignedBy(n, h, old(Value()), Loads(manifestJson).value, signature) else old(Value())
      ensures read ==> status == (if signature.Some? then Signed else Unsigned) && attempts == old(attempts)
    {
      var manifest := Loads(manifestJson);
      read := manifest.Some?;
      if read {
        assurance := Normal(SignManifest(n, h, manifest.value, signature));
        status := if signature.Some? then Signed else Unsigned;
      }
    }

    method Fail(now: int, s: Settings)
      modifies this
      ensures Value() == FailedAt(old(Value()), now, s)
      ensures status == (if old(attempts) >= s.maxAttempts then Failed else Pending) && attempts == old(attempts)
      ensures availableAt == if status == Pending then now + Backoff(old(attempts)) else old(availableAt)
    {
      if attempts >= s.maxAttempts {
        status := Failed;
      } else {
        status, availableAt := Pending, now + Backoff(attempts);
      }
    }
  }

  // ---------------------------------------------------------------- verification

  /** verify_receipt: the stored digest, and the digest the signer noted. */
  predicate DigestsHold(n: Names, h: Hash, r: Receipt) {
    var manifest := Loads(r.manifestJson);
    && IsObj(manifest)
    && DigestOf(h, manifest.value) == r.manifestSha
    && ManifestFaults(n, h, manifest.value.members, Some(r.assurance)) == {}
  }

  /** A receipt passes exactly when its manifest reads as an object with the stored digest, and a signature notes that digest too. */
  lemma DigestsHoldExactlyWhen(n: Names, h: Hash, r: Receipt)
    ensures DigestsHold(n, h, r) <==>
      && Loads(r.manifestJson).Some? && Loads(r.manifestJson).value.Obj? && h(Canonical(Loads(r.manifestJson).value)) == r.manifestSha
      && (r.assurance.Obj? && Lookup(r.assurance.members, n.status) == Some(Str(n.signed)) ==>
            Lookup(r.assurance.members, n.digest) == Some(Str(h(Canonical(Loads(r.manifestJson).value)))))
  {}

  /** A receipt is issued without a signature: to be signed when it has a profile, which its assurance names. */
  lemma IssuedSays(n: Names, h: Hash, key: Option<Text>, request: Json, manifest: Json, profile: Option<Text>, now: int)
    requires n.Apart()
    ensures var r, a := Issued(n, h, key, request, manifest, profile, now), FirstAssurance(n, profile);
      && r.key == key && r.requestSha == h(Canonical(request)) && r.manifestJson == Canonical(manifest) && r.manifestSha == h(Canonical(manifest))
      && r.attempts == 0 && r.availableAt == now && r.assurance == Normal(a) && a.Obj?
      && (profile.Some? ==> r.status == Pending && Lookup(a.members, n.status) == Some(Str(n.pending)) && Lookup(a.members, n.profile) == Some(Str(profile.value)))
      && (profile.None? ==> r.status == Unsigned && Lookup(a.members, n.status) == Some(Str(n.unsigned)) && Lookup(a.members, n.profile) == Some(Null))
      && a.members.rest.rest == Member(n.kind, Str(n.none), Member(n.keyId, Null, Member(n.signedAt, Null, NoMembers)))
  {
    var a := FirstAssurance(n, profile).members;
    Held(a.key, a.value, a.rest);
    Held(a.rest.key, a.rest.value, a.rest.rest);
  }

  // ---------------------------------------------------------------- the table over time

  type Table = map<nat, Receipt>

  /** A worker that outlives its claim may still sign or fail a row, so those steps ask nothing of the status. */
  datatype Step =
    | Issue(id: nat, key: Option<Text>, request: Json, manifest: Json, profile: Option<Text>, now: int)
    | Recover(id: nat, now: int)
    | Claim(id: nat, now: int)
    | Sign(id: nat, signature: Option<Signature>)
    | Fail(id: nat, now: int)
    | Purge(id: nat)

  ghost predicate KeyFree(t: Table, key: Option<Text>) {
    key.Some? ==> forall i :: i in t ==> t[i].key != key
  }

  /** A manifest as the program builds it: an object whose keys are distinct and spell out no surrogate pair. */
  ghost predicate Issuable(n: Names, h: Hash, manifest: Json) {
    manifest.Obj? && Distinct(manifest) && Whole(manifest, true)
  }

  /** What a signer may add: no second field under a name that sign_manifest uses. */
  ghost predicate Signable(n: Names, signature: Option<Signature>) {
    signature.Some? ==>
      var d := signature.value.details;
      DistinctMembers(d) && !HasKey(d, n.status) && !HasKey(d, n.profile) && !HasKey(d, n.signedAt) && !HasKey(d, n.digest)
  }

  ghost predicate Enabled(n: Names, h: Hash, s: Settings, t: Table, step: Step) {
    match step
    case Issue(id, key, _, manifest, _, _) => id !in t && KeyFree(t, key) && Issuable(n, h, manifest)
    case Recover(id, now) => id in t && Stale(t[id], now, s)
    case Claim(id, _) => id in t && t[id].status.Pending?
    case Sign(id, signature) => id in t && t[id].attempts > 0 && Loads(t[id].manifestJson).Some? && Signable(n, signature)
    case Fail(id, _) => id in t && t[id].attempts > 0
    case Purge(id) => id in t && !t[id].status.Pending? && !t[id].status.Signing?
  }

  ghost function Apply(n: Names, h: Hash, s: Settings, t: Table, step: Step): Table
    requires Enabled(n, h, s, t, step)
  {
    match step
    case Issue(id, key, request, manifest, profile, now) => t[id := Issued(n, h, key, request, manifest, profile, now)]
    case Recover(id, now) => t[id := Recovered(t[id], now)]
    case Claim(id, now) => t[id := Claimed(t[id], now)]
    case Sign(id, signature) => t[id := SignedBy(n, h, t[id], Loads(t[id].manifestJson).value, signature)]
    case Fail(id, now) => t[id := FailedAt(t[id], now, s)]
    case Purge(id) => t - {id}
  }

  ghost function Exec(n: Names, h: Hash, s: Settings, t: Table, steps: seq<Step>): Option<Table>
    decreases |steps|
  {
    if steps == [] then Some(t)
    else if Enabled(n, h, s, t, steps[0]) then Exec(n, h, s, Apply(n, h, s, t, steps[0]), steps[1..])
    else None
  }

  ghost predicate RowInv(n: Names, h: Hash, s: Settings, r: Receipt) {
    && DigestsHold(n, h, r)
    && (r.status.Pending? ==> r.attempts < s.maxAttempts)
    && r.attempts <= s.maxAttempts
  }

  ghost predicate Inv(n: Names, h: Hash, s: Settings, t: Table) {
    && (forall i :: i in t ==> RowInv(n, h, s, t[i]))
    && UniqueKeys(t)
  }

  ghost predicate UniqueKeys(t: Table) {
    forall i, j :: i in t && j in t && t[i].key.Some? && t[i].key == t[j].key ==> i == j
  }

  // ---------------------------------------------------------------- digests survive

  lemma UnsignedHasNoFault(n: Names, h: Hash, manifest: Json, m: Members)
    requires n.Apart()
    ensures ManifestFaults(n, h, m, Some(Normal(SignManifest(n, h, manifest, None)))) == {}
  {
    var a := SignManifest(n, h, manifest, None).members;
    NormalStatus(a, n.status, n.unsigned);
  }

  lemma FirstHasNoFault(n: Names, h: Hash, profile: Option<Text>, m: Members)
    requires n.Apart()
    ensures ManifestFaults(n, h, m, Some(Normal(FirstAssurance(n, profile)))) == {}
  {
    NormalStatus(FirstAssurance(n, profile).members, n.status, if profile.Some? then n.pending else n.unsigned);
  }

  /** The first member's text is what is read back under its key, whatever follows. */
  lemma NormalStatus(a: Members, k: Text, text: Text)
    requires a.Member? && a.key == k && a.value == Str(text)
    ensures HasKey(NormalMembers(a), k) && Get(NormalMembers(a), k) == Str(text)
  {
    InsertedFirst(k, Str(text), NormalMembers(a.rest));
  }

  lemma {:induction false} InsertedFirst(k: Text, v: Json, m: Members)
    ensures HasKey(InsertKey(k, v, m), k) && Get(InsertKey(k, v, m), k) == v
  {
    if m.Member? && Less(m.key, k) {
      LessTotal(m.key, k);
      InsertedFirst(k, v, m.rest);
    }
  }

  lemma {:induction false} ReadObject(m: Members)
    ensures Loads(Canonical(Obj(m))).Some? && Loads(Canonical(Obj(m))).value.Obj?
    ensures Distinct(Loads(Canonical(Obj(m))).value)
  {
    LoadsCanonical(Obj(m));
    MergedIsDistinct(JoinedAll(Normal(Obj(m))));
  }

  lemma IssuedHolds(n: Names, h: Hash, key: Option<Text>, request: Json, manifest: Json, profile: Option<Text>, now: int)
    requires n.Apart() && Issuable(n, h, manifest)
    ensures DigestsHold(n, h, Issued(n, h, key, request, manifest, profile, now))
  {
    CanonicalFixedPoint(manifest);
    ReadObject(manifest.members);
    FirstHasNoFault(n, h, profile, Loads(Canonical(manifest)).value.members);
  }

  lemma SignedDigest(n: Names, h: Hash, manifest: Json, signature: Option<Signature>)
    requires n.Apart() && manifest.Obj? && Signable(n, signature)
    ensures ManifestFaults(n, h, manifest.members, Some(Normal(SignManifest(n, h, manifest, signature)))) == {}
  {
    if signature.None? {
      UnsignedHasNoFault(n, h, manifest, manifest.members);
    } else {
      var a := SignManifest(n, h, manifest, signature).members;
      assert DistinctMembers(a.rest.rest.rest);
      Past(a.rest.rest.key, a.rest.rest.value, a.rest.rest.rest, n.status);
      Past(a.rest.rest.rest.key, a.rest.rest.rest.value, a.rest.rest.rest.rest, n.status);
      assert DistinctMembers(a.rest.rest);
      assert Distinct(a.rest.value) && !HasKey(a.rest.rest, n.profile);
      assert DistinctMembers(a.rest);
      var d := Str(DigestOf(h, manifest));
      Past(a.key, a.value, a.rest, n.digest);
      Past(a.rest.key, a.rest.value, a.rest.rest, n.digest);
      Past(a.rest.rest.key, a.rest.rest.value, a.rest.rest.rest, n.digest);
      ReadsBack(a, n.digest, d);
    }
  }

  lemma StepKeepsRows(n: Names, h: Hash, s: Settings, t: Table, step: Step)
    requires n.Apart() && s.maxAttempts >= 1 && Inv(n, h, s, t) && Enabled(n, h, s, t, step)
    ensures !step.Purge? ==> RowInv(n, h, s, Apply(n, h, s, t, step)[step.id])
  {
    match step
    case Issue(id, key, request, manifest, profile, now) => IssuedHolds(n, h, key, request, manifest, profile, now);
    case Sign(id, signature) => SignedDigest(n, h, Loads(t[id].manifestJson).value, signature);
    case _ =>
  }

  lemma WriteKeepsKeys(t: Table, id: nat, r: Receipt)
    requires UniqueKeys(t) && if id in t then r.key == t[id].key else KeyFree(t, r.key)
    ensures UniqueKeys(t[id := r])
  {}

  lemma StepKeepsInv(n: Names, h: Hash, s: Settings, t: Table, step: Step)
    requires n.Apart() && s.maxAttempts >= 1 && Inv(n, h, s, t) && Enabled(n, h, s, t, step)
    ensures Inv(n, h, s, Apply(n, h, s, t, step))
  {
    StepKeepsRows(n, h, s, t, step);
    if !step.Purge? { WriteKeepsKeys(t, step.id, Apply(n, h, s, t, step)[step.id]); }
  }

  /**
   In every reachable table each receipt's stored digest verifies, and so does the digest its signer
   noted, whatever claims, failures, recoveries and late workers there were; no key has two receipts.
   */
  lemma {:induction false} RunKeepsInv(n: Names, h: Hash, s: Settings, t: Table, steps: seq<Step>, u: Table)
    requires n.Apart() && s.maxAttempts >= 1 && Inv(n, h, s, t) && Exec(n, h, s, t, steps) == Some(u)
    ensures Inv(n, h, s, u)
    decreases |steps|
  {
    if steps != [] {
      StepKeepsInv(n, h, s, t, steps[0]);
      RunKeepsInv(n, h, s, Apply(n, h, s, t, steps[0]), steps[1..], u);
    }
  }

  /** From an empty table, over every run. */
  lemma EveryRun(n: Names, h: Hash, s: Settings, steps: seq<Step>, u: Table)
    requires n.Apart() && s.maxAttempts >= 1 && Exec(n, h, s, map[], steps) == Some(u)
    ensures forall i :: i in u ==> DigestsHold(n, h, u[i])
    ensures forall i, j :: i in u && j in u && u[i].key.Some? && u[i].key == u[j].key ==> i == j
  {
    RunKeepsInv(n, h, s, map[], steps, u);
  }

  /** The same under the program's own names. */
  lemma ProgramEveryRun(n: Names, h: Hash, s: Settings, steps: seq<Step>, u: Table)
    requires OfProgram(n) && s.maxAttempts >= 1 && Exec(n, h, s, map[], steps) == Some(u)
    ensures forall i :: i in u ==> DigestsHold(n, h, u[i])
    ensures forall i, j :: i in u && j in u && u[i].key.Some? && u[i].key == u[j].key ==> i == j
  {
    OfProgramApart(n);
    EveryRun(n, h, s, steps, u);
  }

  // ---------------------------------------------------------------- failures and attempts

  /** A failed signature ends the receipt exactly when its last attempt is used; otherwise it waits. */
  lemma FailureOutcome(n: Names, h: Hash, s: Settings, t: Table, id: nat, now: int)
    requires Enabled(n, h, s, t, Step.Fail(id, now))
    ensures var r := Apply(n, h, s, t, Step.Fail(id, now))[id];
      && (r.status == Failed <==> t[id].attempts >= s.maxAttempts)
      && (t[id].attempts < s.maxAttempts ==> r.status == Pending && now + 1 <= r.availableAt <= now + 300)
      && r.attempts == t[id].attempts && r.assurance == t[id].assurance
  {
    BackoffGrows(t[id].attempts, t[id].attempts);
  }

  /** Recovery finds a claim older than the timeout with attempts left, and the receipt is pending at once. */
  lemma RecoveryOutcome(n: Names, h: Hash, s: Settings, t: Table, id: nat, now: int)
    requires Enabled(n, h, s, t, Step.Recover(id, now))
    ensures t[id].status == Signing && now - t[id].claimedAt > s.claimTimeout && t[id].attempts < s.maxAttempts
    ensures var r := Apply(n, h, s, t, Step.Recover(id, now))[id]; r.status == Pending && r.availableAt == now && r.attempts == t[id].attempts
  {}

  /** What a signer writes: the assurance of the manifest as it reads, and the status that goes with it. */
  lemma SigningOutcome(n: Names, h: Hash, s: Settings, t: Table, id: nat, signature: Option<Signature>)
    requires Enabled(n, h, s, t, Step.Sign(id, signature))
    ensures var r := Apply(n, h, s, t, Step.Sign(id, signature))[id];
      && r.status == (if signature.Some? then Signed else Unsigned) && r.attempts == t[id].attempts && r.key == t[id].key
      && r.manifestJson == t[id].manifestJson && r.manifestSha == t[id].manifestSha && r.requestSha == t[id].requestSha
      && r.assurance == Normal(SignManifest(n, h, Loads(t[id].manifestJson).value, signature))
  {}

  /** How many claims of the receipt a run makes. */
  function Claims(steps: seq<Step>, id: nat): nat {
    if steps == [] then 0
    else Claims(steps[..|steps| - 1], id) + if steps[|steps| - 1].Claim? && steps[|steps| - 1].id == id then 1 else 0
  }

  lemma {:induction false} ClaimsFirst(steps: seq<Step>, id: nat)
    requires steps != []
    ensures Claims(steps, id) == (if steps[0].Claim? && steps[0].id == id then 1 else 0) + Claims(steps[1..], id)
    decreases |steps|
  {
    if |steps| == 1 {
      assert steps[..0] == [] && steps[1..] == [];
    } else {
      ClaimsFirst(steps[..|steps| - 1], id);
      assert steps[..|steps| - 1][1..] == steps[1..][..|steps| - 2];
    }
  }

  /** Every attempt a receipt has beyond those it had before was a claim of it, and a failed one has none left. */
  lemma {:induction false} AttemptsAreClaims(n: Names, h: Hash, s: Settings, t: Table, steps: seq<Step>, u: Table, id: nat)
    requires Exec(n, h, s, t, steps) == Some(u) && id in u
    requires id in t ==> (t[id].status == Failed ==> t[id].attempts >= s.maxAttempts)
    ensures u[id].attempts <= (if id in t then t[id].attempts else 0) + Claims(steps, id)
    ensures u[id].status == Failed ==> u[id].attempts >= s.maxAttempts
    decreases |steps|
  {
    if steps != [] {
      ClaimsFirst(steps, id);
      AttemptsAreClaims(n, h, s, Apply(n, h, s, t, steps[0]), steps[1..], u, id);
    }
  }

  /** Over every run from an empty table: a receipt has failed for good only after as many claims as it is allowed. */
  lemma FailedMeansSpent(n: Names, h: Hash, s: Settings, steps: seq<Step>, u: Table, id: nat)
    requires Exec(n, h, s, map[], steps) == Some(u) && id in u && u[id].status == Failed
    ensures Claims(steps, id) >= s.maxAttempts
  {
    AttemptsAreClaims(n, h, s, map[], steps, u, id);
  }

  // ---------------------------------------------------------------- idempotency

  datatype Outcome = New | Replay(id: nat) | Conflict

  /** What evaluate_access does with a key: the receipt that holds it decides. */
  ghost predicate Answers(h: Hash, t: Table, key: Text, request: Json, outcome: Outcome) {
    match outcome
    case New => KeyFree(t, Some(key))
    case Replay(id) => id in t && t[id].key == Some(key) && t[id].requestSha == DigestOf(h, request)
    case Conflict => exists i :: i in t && t[i].key == Some(key) && t[i].requestSha != DigestOf(h, request)
  }

  /** The receipt a key got first, kept through any run that does not purge it. */
  lemma {:induction false} KeyKeepsReceipt(n: Names, h: Hash, s: Settings, t: Table, steps: seq<Step>, u: Table, id: nat)
    requires Exec(n, h, s, t, steps) == Some(u) && id in t && Purge(id) !in steps
    ensures id in u && u[id].key == t[id].key && u[id].requestSha == t[id].requestSha
    ensures u[id].manifestJson == t[id].manifestJson && u[id].manifestSha == t[id].manifestSha
    decreases |steps|
  {
    if steps != [] {
      assert steps[0] in steps;
      assert forall x :: x in steps[1..] ==> x in steps;
      KeyKeepsReceipt(n, h, s, Apply(n, h, s, t, steps[0]), steps[1..], u, id);
    }
  }

  /**
   Repeating a key after any run without a purge of its receipt never makes a new one: the same request
   replays the first decision, and a request with another digest conflicts.
   */
  lemma RepeatedKey(n: Names, h: Hash, s: Settings, t: Table, steps: seq<Step>, u: Table, id: nat, key: Text, request: Json, outcome: Outcome)
    requires n.Apart() && s.maxAttempts >= 1 && Inv(n, h, s, t) && Exec(n, h, s, t, steps) == Some(u)
    requires id in t && t[id].key == Some(key) && Purge(id) !in steps
    requires Answers(h, u, key, request, outcome)
    ensures outcome == if t[id].requestSha == DigestOf(h, request) then Replay(id) else Conflict
    ensures id in u && u[id].manifestJson == t[id].manifestJson
  {
    KeyKeepsReceipt(n, h, s, t, steps, u, id);
    RunKeepsInv(n, h, s, t, steps, u);
  }
}
