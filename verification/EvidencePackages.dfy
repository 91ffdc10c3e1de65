/**
 Evidence packages: choosing the records, digesting payload and sections, and checking the written
 document. SHA-256 is an arbitrary function from text to text.
 */
module EvidencePackages {
  import opened Options
  import opened Numbers
  import opened JsonStrings
  import opened CanonicalJson
  import opened JsonText
  import opened JsonLaws

  /** The hex digest of a text. */
  type Hash = string -> Text

  /** A hex digest spells out no surrogate pair: all its characters are ASCII. */
  ghost predicate HexDigests(h: Hash) { forall s :: Unpaired(h(s)) }

  /** The names under which a document, its manifest and its assurance keep their parts. */
  datatype Names = Names(
    manifest: Text, analytics: Text, records: Text, assurance: Text,
    payload: Text, sections: Text, prefix: Text,
    status: Text, profile: Text, signedAt: Text, digest: Text, kind: Text, keyId: Text,
    signed: Text, unsigned: Text, pending: Text, none: Text)
  {
    /** What the checks need of the names; no name holds a surrogate. */
    ghost predicate Apart() {
      && manifest != analytics && manifest != records && manifest != assurance
      && analytics != records && analytics != assurance && records != assurance
      && payload != sections && signed != unsigned && signed != pending
      && status != profile && status != signedAt && status != digest && profile != signedAt && profile != digest && signedAt != digest
      && prefix != [] && analytics != [] && prefix[0] != analytics[0]
      && NoSurrogates(manifest) && NoSurrogates(analytics) && NoSurrogates(records) && NoSurrogates(assurance)
      && NoSurrogates(payload) && NoSurrogates(sections) && NoSurrogates(prefix)
      && NoSurrogates(status) && NoSurrogates(profile) && NoSurrogates(signedAt) && NoSurrogates(digest)
      && NoSurrogates(kind) && NoSurrogates(keyId) && NoSurrogates(signed) && NoSurrogates(unsigned) && NoSurrogates(pending) && NoSurrogates(none)
    }
  }

  /** The same names as strings. */
  datatype Spelling = Spelling(
    manifest: string, analytics: string, records: string, assurance: string,
    payload: string, sections: string, prefix: string,
    status: string, profile: string, signedAt: string, digest: string, kind: string, keyId: string,
    signed: string, unsigned: string, pending: string, none: string)
  {
    ghost predicate Apart() {
      && manifest != analytics && manifest != records && manifest != assurance
      && analytics != records && analytics != assurance && records != assurance
      && payload != sections && signed != unsigned && signed != pending
      && status != profile && status != signedAt && status != digest && profile != signedAt && profile != digest && signedAt != digest
      && prefix != "" && analytics != "" && prefix[0] != analytics[0]
    }

    function ToNames(): Names {
      Names.Names(AsText(manifest), AsText(analytics), AsText(records), AsText(assurance),
                  AsText(payload), AsText(sections), AsText(prefix),
                  AsText(status), AsText(profile), AsText(signedAt), AsText(digest), AsText(kind), AsText(keyId),
                  AsText(signed), AsText(unsigned), AsText(pending), AsText(none))
    }
  }

  /** The names the program uses. */
  function ProgramSpelling(): Spelling {
    Spelling("manifest", "analytics", "records", "assurance", "payload_sha256", "section_sha256", "records/",
             "status", "profile", "signed_at", "manifest_sha256", "type", "key_id", "signed", "unsigned", "pending", "none")
  }

  function DigestOf(h: Hash, v: Json): Text { h(Canonical(v)) }

  // ---------------------------------------------------------------- sections

  /** One category's rows inside the window, oldest first, as the query would return them without a limit. */
  datatype Category = Category(name: Text, rows: seq<Json>)

  datatype Section = Section(name: Text, rows: seq<Json>)

  /** Rows available in the first k categories. */
  function Available(categories: seq<Category>, k: nat): nat
    requires k <= |categories|
  {
    if k == 0 then 0 else Available(categories, k - 1) + |categories[k - 1].rows|
  }

  /** How many rows of category k still fit after the categories before it. */
  function Share(categories: seq<Category>, k: nat, limit: nat): nat
    requires k < |categories|
  {
    Min(|categories[k].rows|, Max(0, limit - Available(categories, k)))
  }

  /** Every section holds the oldest rows of its category that still fit. */
  ghost predicate Taken(categories: seq<Category>, sections: seq<Section>, limit: nat) {
    && |sections| <= |categories|
    && forall i :: 0 <= i < |sections| ==>
         sections[i] == Section(categories[i].name, categories[i].rows[..Share(categories, i, limit)])
  }

  /** Nothing fits any more when category k is reached, or its own rows do not all fit. */
  predicate Full(categories: seq<Category>, k: nat, limit: nat)
    requires k < |categories|
  {
    Available(categories, k) >= limit || Available(categories, k + 1) > limit
  }

  function RowCount(sections: seq<Section>, k: nat): nat
    requires k <= |sections|
  {
    if k == 0 then 0 else RowCount(sections, k - 1) + |sections[k - 1].rows|
  }

  lemma ShareFits(rows: nat, before: nat, limit: nat)
    ensures Min(limit, before) + Min(rows, Max(0, limit - before)) == Min(limit, before + rows)
  {}

  /** Every section is as long as its share. */
  ghost predicate Shared(categories: seq<Category>, sections: seq<Section>, limit: nat) {
    && |sections| <= |categories|
    && forall i :: 0 <= i < |sections| ==> |sections[i].rows| == Share(categories, i, limit)
  }

  lemma TakenIsShared(categories: seq<Category>, sections: seq<Section>, limit: nat)
    requires Taken(categories, sections, limit)
    ensures Shared(categories, sections, limit)
  {
    forall i | 0 <= i < |sections| ensures |sections[i].rows| == Share(categories, i, limit) {
      assert sections[i].rows == categories[i].rows[..Share(categories, i, limit)];
    }
  }

  lemma {:induction false} CountsShares(categories: seq<Category>, sections: seq<Section>, limit: nat, k: nat)
    requires Shared(categories, sections, limit) && k <= |sections|
    ensures RowCount(sections, k) == Min(limit, Available(categories, k))
  {
    if k > 0 {
      CountsShares(categories, sections, limit, k - 1);
      assert |sections[k - 1].rows| == Share(categories, k - 1, limit);
      ShareFits(|categories[k - 1].rows|, Available(categories, k - 1), limit);
    }
  }

  /** The record count is the number of rows in the sections. */
  lemma CountsRows(categories: seq<Category>, sections: seq<Section>, limit: nat, k: nat)
    requires Taken(categories, sections, limit) && k <= |sections|
    ensures RowCount(sections, k) == Min(limit, Available(categories, k))
  {
    TakenIsShared(categories, sections, limit);
    CountsShares(categories, sections, limit, k);
  }

  /** One category's query, which fetches at most one row more than fits, and the cut. */
  method TakeRows(rows: seq<Json>, remaining: nat) returns (taken: seq<Json>, cut: bool)
    ensures taken == rows[..Min(|rows|, remaining)]
    ensures cut <==> remaining == 0 || |rows| > remaining
  {
    if remaining == 0 { return [], true; }
    taken := if |rows| > remaining + 1 then rows[..remaining + 1] else rows;
    cut := |taken| > remaining;
    if cut { taken := taken[..remaining]; }
  }

  /** Some category before k is reached full or overflows. */
  predicate Overflows(categories: seq<Category>, k: nat, limit: nat)
    requires k <= |categories|
  {
    k > 0 && (Full(categories, k - 1, limit) || Overflows(categories, k - 1, limit))
  }

  lemma {:induction false} OverflowsExactlyWhen(categories: seq<Category>, k: nat, limit: nat)
    requires k <= |categories|
    ensures Overflows(categories, k, limit) <==> exists j :: 0 <= j < k && Full(categories, j, limit)
  {
    if k > 0 { OverflowsExactlyWhen(categories, k - 1, limit); }
  }

  lemma TakenMore(categories: seq<Category>, sections: seq<Section>, limit: nat, rows: seq<Json>)
    requires Taken(categories, sections, limit) && |sections| < |categories|
    requires rows == categories[|sections|].rows[..Share(categories, |sections|, limit)]
    ensures Taken(categories, sections + [Section(categories[|sections|].name, rows)], limit)
  {}

  /** What one category takes from what is left, and what it leaves. */
  lemma ShareStep(categories: seq<Category>, k: nat, limit: nat, remaining: nat)
    requires k < |categories| && remaining == Max(0, limit - Available(categories, k))
    ensures Share(categories, k, limit) == Min(|categories[k].rows|, remaining) <= remaining
    ensures remaining - Share(categories, k, limit) == Max(0, limit - Available(categories, k + 1))
    ensures Full(categories, k, limit) <==> remaining == 0 || |categories[k].rows| > remaining
    ensures Overflows(categories, k + 1, limit) <==> Overflows(categories, k, limit) || Full(categories, k, limit)
  {}

  /** The loop over the categories, with what is left of the record limit. */
  method PackageSections(categories: seq<Category>, limit: nat)
    returns (sections: seq<Section>, count: int, truncated: bool)
    ensures |sections| == |categories| && Taken(categories, sections, limit)
    ensures count == RowCount(sections, |sections|) == Min(limit, Available(categories, |categories|))
    ensures truncated <==> Overflows(categories, |categories|, limit)
  {
    sections, truncated := [], false;
    var remaining: nat := limit;
    for k := 0 to |categories|
      invariant |sections| == k && Taken(categories, sections, limit)
      invariant remaining == Max(0, limit - Available(categories, k))
      invariant truncated <==> Overflows(categories, k, limit)
    {
      var rows, cut := TakeRows(categories[k].rows, remaining);
      ShareStep(categories, k, limit, remaining);
      TakenMore(categories, sections, limit, rows);
      truncated := truncated || cut;
      sections := sections + [Section(categories[k].name, rows)];
      remaining := remaining - |rows|;
    }
    count := limit - remaining;
    CountsRows(categories, sections, limit, |sections|);
  }

  // ---------------------------------------------------------------- digests

  /** Members sorted by key, as sorted(records.items()) walks them. */
  function Sorted(m: Members): Members {
    match m
    case NoMembers => NoMembers
    case Member(key, value, rest) => InsertKey(key, value, Sorted(rest))
  }

  function RecordKey(n: Names, category: Text): Text { n.prefix + category }

  function RecordDigests(n: Names, h: Hash, m: Members): Members {
    match m
    case NoMembers => NoMembers
    case Member(key, value, rest) => Member(RecordKey(n, key), Str(DigestOf(h, value)), RecordDigests(n, h, rest))
  }

  function SectionDigests(n: Names, h: Hash, analytics: Json, records: Members): Members {
    Member(n.analytics, Str(DigestOf(h, analytics)), RecordDigests(n, h, Sorted(records)))
  }

  function Append(a: Members, b: Members): Members {
    match a
    case NoMembers => b
    case Member(key, value, rest) => Member(key, value, Append(rest, b))
  }

  lemma {:induction false} AppendNothing(a: Members)
    ensures Append(a, NoMembers) == a
  {
    if a.Member? { AppendNothing(a.rest); }
  }

  lemma {:induction false} AppendAgain(a: Members, b: Members, c: Members)
    ensures Append(Append(a, b), c) == Append(a, Append(b, c))
  {
    if a.Member? { AppendAgain(a.rest, b, c); }
  }

  /** The loop that fills the dictionary of section digests. */
  method FillSectionDigests(n: Names, h: Hash, analytics: Json, records: Members) returns (digests: Members)
    ensures digests == SectionDigests(n, h, analytics, records)
  {
    digests := Member(n.analytics, Str(DigestOf(h, analytics)), NoMembers);
    ghost var first := digests;
    var left := Sorted(records);
    while left.Member?
      invariant Append(digests, RecordDigests(n, h, left)) == Append(first, RecordDigests(n, h, Sorted(records)))
      decreases left
    {
      var one := Member(RecordKey(n, left.key), Str(DigestOf(h, left.value)), NoMembers);
      AppendAgain(digests, one, RecordDigests(n, h, left.rest));
      assert Append(one, RecordDigests(n, h, left.rest)) == Member(one.key, one.value, Append(NoMembers, RecordDigests(n, h, left.rest)));
      digests := Append(digests, one);
      left := left.rest;
    }
    AppendNothing(digests);
  }

  // ---------------------------------------------------------------- the document

  function Payload(n: Names, analytics: Json, records: Members): Json {
    Obj(Member(n.analytics, analytics, Member(n.records, Obj(records), NoMembers)))
  }

  /** `fields` are the manifest's other fields; their place does not show in canonical JSON. */
  function Manifest(n: Names, h: Hash, fields: Members, analytics: Json, records: Members): Members {
    Member(n.payload, Str(DigestOf(h, Payload(n, analytics, records))),
           Member(n.sections, Obj(SectionDigests(n, h, analytics, records)), fields))
  }

  function Document(n: Names, manifest: Members, analytics: Json, records: Members, assurance: Json): Json {
    Obj(Member(n.manifest, Obj(manifest),
        Member(n.analytics, analytics,
        Member(n.records, Obj(records),
        Member(n.assurance, assurance, NoMembers)))))
  }

  // ---------------------------------------------------------------- verification

  function Lookup(m: Members, k: Text): Option<Json> { if HasKey(m, k) then Some(Get(m, k)) else None }

  function OrNull(v: Option<Json>): Json { if v.Some? then v.value else Null }

  datatype Fault = PayloadDigest | SectionDigest | ManifestDigest

  datatype Checked = Invalid | Checked(faults: set<Fault>)

  predicate IsObj(v: Option<Json>) { v.Some? && v.value.Obj? }

  /** Dictionaries are equal when their normal forms are. */
  predicate SameValue(a: Option<Json>, b: Json) { a.Some? && Normal(a.value) == Normal(b) }

  function PayloadFaults(n: Names, h: Hash, manifest: Members, analytics: Json, records: Members): set<Fault> {
    if Lookup(manifest, n.payload) == Some(Str(DigestOf(h, Payload(n, analytics, records)))) then {} else {PayloadDigest}
  }

  function SectionFaults(n: Names, h: Hash, manifest: Members, analytics: Json, records: Members): set<Fault> {
    if SameValue(Lookup(manifest, n.sections), Obj(SectionDigests(n, h, analytics, records))) then {} else {SectionDigest}
  }

  predicate IsSigned(n: Names, assurance: Option<Json>) {
    IsObj(assurance) && Lookup(assurance.value.members, n.status) == Some(Str(n.signed))
  }

  function ManifestFaults(n: Names, h: Hash, manifest: Members, assurance: Option<Json>): set<Fault> {
    if IsSigned(n, assurance)
       && Lookup(assurance.value.members, n.digest) != Some(Str(DigestOf(h, Obj(manifest))))
    then {ManifestDigest} else {}
  }

  /** The digest checks of verify_evidence_package on a package's bytes. */
  function Verify(n: Names, h: Hash, content: string): Checked {
    match Loads(content)
    case None => Invalid
    case Some(document) =>
      if !document.Obj? then Invalid else
        var manifest := Lookup(document.members, n.manifest);
        var records := Lookup(document.members, n.records);
        var analytics := OrNull(Lookup(document.members, n.analytics));
        var assurance := Lookup(document.members, n.assurance);
        if !IsObj(manifest) || !IsObj(records) then Invalid else
          Checked(PayloadFaults(n, h, manifest.value.members, analytics, records.value.members)
                  + SectionFaults(n, h, manifest.value.members, analytics, records.value.members)
                  + ManifestFaults(n, h, manifest.value.members, assurance))
  }

  lemma Held(k: Text, v: Json, rest: Members)
    ensures Lookup(Member(k, v, rest), k) == Some(v)
    ensures forall other :: other != k ==> Lookup(Member(k, v, rest), other) == Lookup(rest, other)
  {}

  /** What a package's parts hold under their names. */
  lemma PartsHold(n: Names, h: Hash, fields: Members, analytics: Json, records: Members, assurance: Json)
    requires n.Apart()
    ensures var payload := Payload(n, analytics, records); var manifest := Manifest(n, h, fields, analytics, records);
            var document := Document(n, manifest, analytics, records, assurance);
            && payload.Obj? && Lookup(payload.members, n.analytics) == Some(analytics) && Lookup(payload.members, n.records) == Some(Obj(records))
            && Lookup(manifest, n.payload) == Some(Str(DigestOf(h, payload)))
            && Lookup(manifest, n.sections) == Some(Obj(SectionDigests(n, h, analytics, records)))
            && document.Obj? && Lookup(document.members, n.manifest) == Some(Obj(manifest)) && Lookup(document.members, n.analytics) == Some(analytics)
            && Lookup(document.members, n.records) == Some(Obj(records)) && Lookup(document.members, n.assurance) == Some(assurance)
  {
    var payload, manifest := Payload(n, analytics, records), Manifest(n, h, fields, analytics, records);
    var document := Document(n, manifest, analytics, records, assurance).members;
    Held(n.analytics, analytics, payload.members.rest);
    Held(n.records, Obj(records), NoMembers);
    Held(n.payload, manifest.value, manifest.rest);
    Held(n.sections, manifest.rest.value, fields);
    Held(document.key, document.value, document.rest);
    Held(document.rest.key, document.rest.value, document.rest.rest);
    Held(document.rest.rest.key, document.rest.rest.value, document.rest.rest.rest);
    Held(n.assurance, assurance, NoMembers);
  }

  /** Each fault is found exactly when the digest it is about is not the one the package holds. */
  lemma FaultsExactlyWhen(n: Names, h: Hash, content: string, m: Members, manifest: Members, records: Members)
    requires Loads(content) == Some(Obj(m)) && Lookup(m, n.manifest) == Some(Obj(manifest)) && Lookup(m, n.records) == Some(Obj(records))
    ensures var analytics := if HasKey(m, n.analytics) then Get(m, n.analytics) else Null;
            var assurance := Lookup(m, n.assurance);
            && Verify(n, h, content).Checked?
            && (PayloadDigest in Verify(n, h, content).faults <==>
                  Lookup(manifest, n.payload) != Some(Str(DigestOf(h, Payload(n, analytics, records)))))
            && (SectionDigest in Verify(n, h, content).faults <==>
                  Lookup(manifest, n.sections).None? || Normal(Lookup(manifest, n.sections).value) != Normal(Obj(SectionDigests(n, h, analytics, records))))
            && (ManifestDigest in Verify(n, h, content).faults <==>
                  && assurance.Some? && assurance.value.Obj? && Lookup(assurance.value.members, n.status) == Some(Str(n.signed))
                  && Lookup(assurance.value.members, n.digest) != Some(Str(DigestOf(h, Obj(manifest)))))
  {}

  /** A package is not examined at all exactly when it is no object with a manifest and records that are objects. */
  lemma InvalidExactlyWhen(n: Names, h: Hash, content: string)
    ensures Verify(n, h, content) == Invalid <==>
      !exists m, manifest, records ::
        Loads(content) == Some(Obj(m)) && Lookup(m, n.manifest) == Some(Obj(manifest)) && Lookup(m, n.records) == Some(Obj(records))
  {
    if Verify(n, h, content) != Invalid {
      var m := Loads(content).value.members;
      assert Lookup(m, n.manifest) == Some(Obj(Lookup(m, n.manifest).value.members)) && Lookup(m, n.records) == Some(Obj(Lookup(m, n.records).value.members));
    }
  }

  // ---------------------------------------------------------------- signing

  /** What a signer adds: the profile, the time, and its own fields. */
  datatype Signature = Signature(profile: Text, at: Moment, details: Members)

  /** sign_manifest: without a profile the manifest stays unsigned. */
  function SignManifest(n: Names, h: Hash, manifest: Json, signature: Option<Signature>): Json {
    match signature
    case None =>
      Obj(Member(n.status, Str(n.unsigned), Member(n.profile, Null,
          Member(n.kind, Str(n.none), Member(n.keyId, Null, Member(n.signedAt, Null, NoMembers))))))
    case Some(g) =>
      Obj(Member(n.status, Str(n.signed), Member(n.profile, Str(g.profile),
          Member(n.signedAt, Stamp(g.at), Member(n.digest, Str(DigestOf(h, manifest)), g.details)))))
  }

  /** A signed manifest's assurance says by which profile and when, and holds the manifest's digest; an unsigned one's says that it is. */
  lemma AssuranceSays(n: Names, h: Hash, manifest: Json, signature: Option<Signature>)
    requires n.Apart()
    ensures var a := SignManifest(n, h, manifest, signature);
      && a.Obj?
      && (signature.Some? ==>
            && Lookup(a.members, n.status) == Some(Str(n.signed)) && Lookup(a.members, n.profile) == Some(Str(signature.value.profile))
            && Lookup(a.members, n.signedAt) == Some(Stamp(signature.value.at)) && Lookup(a.members, n.digest) == Some(Str(DigestOf(h, manifest))))
      && (signature.None? ==>
            && Lookup(a.members, n.status) == Some(Str(n.unsigned)) && Lookup(a.members, n.profile) == Some(Null)
            && a.members.rest.rest == Member(n.kind, Str(n.none), Member(n.keyId, Null, Member(n.signedAt, Null, NoMembers))))
  {
    var a := SignManifest(n, h, manifest, signature).members;
    Held(a.key, a.value, a.rest);
    Held(a.rest.key, a.rest.value, a.rest.rest);
    Held(a.rest.rest.key, a.rest.rest.value, a.rest.rest.rest);
    if signature.Some? { Held(a.rest.rest.rest.key, a.rest.rest.rest.value, a.rest.rest.rest.rest); }
  }

  // ---------------------------------------------------------------- names

  lemma RecordKeyInjective(n: Names, a: Text, b: Text)
    requires n.Apart()
    ensures RecordKey(n, a) == RecordKey(n, b) ==> a == b
    ensures RecordKey(n, a) != n.analytics
  {
    assert RecordKey(n, a)[|n.prefix|..] == a && RecordKey(n, b)[|n.prefix|..] == b;
    assert RecordKey(n, a)[0] == n.prefix[0];
  }

  /** There is one digest under each record category's own key, and it is that of its rows. */
  lemma {:induction false} RecordDigestsHold(n: Names, h: Hash, records: Members, category: Text)
    requires n.Apart()
    ensures Lookup(RecordDigests(n, h, records), RecordKey(n, category))
         == if HasKey(records, category) then Some(Str(DigestOf(h, Get(records, category)))) else None
  {
    if records.Member? {
      RecordKeyInjective(n, records.key, category);
      RecordDigestsHold(n, h, records.rest, category);
    }
  }

  // ---------------------------------------------------------------- section digests of a normal form

  function NormalValues(m: Members): Members {
    match m
    case NoMembers => NoMembers
    case Member(key, value, rest) => Member(key, Normal(value), NormalValues(rest))
  }

  lemma {:induction false} InsertNormalValues(k: Text, v: Json, m: Members)
    ensures NormalValues(InsertKey(k, v, m)) == InsertKey(k, Normal(v), NormalValues(m))
  {
    if m.Member? && Less(m.key, k) { InsertNormalValues(k, v, m.rest); }
  }

  lemma {:induction false} SortedNormal(m: Members)
    ensures NormalMembers(m) == NormalValues(Sorted(m))
  {
    if m.Member? {
      SortedNormal(m.rest);
      InsertNormalValues(m.key, m.value, Sorted(m.rest));
    }
  }

  lemma {:induction false} OrderedSorted(m: Members)
    requires OrderedMembers(m)
    ensures Sorted(m) == m
  {
    if m.Member? {
      OrderedSorted(m.rest);
      if m.rest.Member? { LessTotal(m.key, m.rest.key); }
    }
  }

  predicate DistinctValues(m: Members) { m.Member? ==> Distinct(m.value) && DistinctValues(m.rest) }

  lemma {:induction false} InsertDistinctValues(k: Text, v: Json, m: Members)
    requires Distinct(v) && DistinctValues(m)
    ensures DistinctValues(InsertKey(k, v, m))
  {
    if m.Member? && Less(m.key, k) { InsertDistinctValues(k, v, m.rest); }
  }

  lemma {:induction false} SortedKeeps(m: Members, j: Text)
    ensures HasKey(Sorted(m), j) <==> HasKey(m, j)
    ensures DistinctMembers(m) ==> DistinctValues(Sorted(m))
  {
    if m.Member? {
      SortedKeeps(m.rest, j);
      InsertHasKey(m.key, m.value, Sorted(m.rest), j);
      if DistinctMembers(m) { InsertDistinctValues(m.key, m.value, Sorted(m.rest)); }
    }
  }

  lemma {:induction false} DigestsOfNormalValues(n: Names, h: Hash, m: Members)
    requires DistinctValues(m)
    ensures RecordDigests(n, h, NormalValues(m)) == RecordDigests(n, h, m)
  {
    if m.Member? {
      CanonicalNormal(m.value);
      DigestsOfNormalValues(n, h, m.rest);
    }
  }

  /** The section digests of what was read back are those of what was written. */
  lemma SectionDigestsOfNormal(n: Names, h: Hash, analytics: Json, records: Members)
    requires Distinct(analytics) && DistinctMembers(records)
    ensures SectionDigests(n, h, Normal(analytics), NormalMembers(records)) == SectionDigests(n, h, analytics, records)
  {
    CanonicalNormal(analytics);
    NormalMembersOrdered(records);
    OrderedSorted(NormalMembers(records));
    SortedNormal(records);
    SortedKeeps(records, []);
    DigestsOfNormalValues(n, h, Sorted(records));
  }

  // ---------------------------------------------------------------- distinct keys of what is built

  lemma {:induction false} InsertDistinct(k: Text, v: Json, m: Members)
    requires DistinctMembers(m) && Distinct(v) && !HasKey(m, k)
    ensures DistinctMembers(InsertKey(k, v, m))
  {
    if m.Member? && Less(m.key, k) {
      InsertDistinct(k, v, m.rest);
      InsertHasKey(k, v, m.rest, m.key);
    }
  }

  lemma {:induction false} SortedDistinct(m: Members)
    requires DistinctMembers(m)
    ensures DistinctMembers(Sorted(m))
  {
    if m.Member? {
      SortedDistinct(m.rest);
      SortedKeeps(m.rest, m.key);
      InsertDistinct(m.key, m.value, Sorted(m.rest));
    }
  }

  lemma {:induction false} SortedWhole(m: Members)
    requires WholeMembers(m, false)
    ensures WholeMembers(Sorted(m), false)
  {
    if m.Member? {
      SortedWhole(m.rest);
      InsertWhole(m.key, m.value, Sorted(m.rest), false);
    }
  }

  lemma {:induction false} RecordDigestsLack(n: Names, h: Hash, m: Members, k: Text)
    requires n.Apart()
    ensures HasKey(RecordDigests(n, h, m), RecordKey(n, k)) ==> HasKey(m, k)
    ensures !HasKey(RecordDigests(n, h, m), n.analytics)
  {
    if m.Member? {
      RecordDigestsLack(n, h, m.rest, k);
      RecordKeyInjective(n, m.key, k);
    }
  }

  /** No spelled-out surrogate pair and distinct keys everywhere. */
  ghost predicate Clean(v: Json) { Distinct(v) && Whole(v, false) }

  ghost predicate CleanMembers(m: Members) { DistinctMembers(m) && WholeMembers(m, false) }

  lemma CleanMember(k: Text, v: Json, m: Members)
    requires Unpaired(k) && !HasKey(m, k) && Clean(v) && CleanMembers(m)
    ensures CleanMembers(Member(k, v, m))
  {}

  /** A member under another key does not show. */
  lemma Past(k: Text, v: Json, m: Members, j: Text)
    requires j != k
    ensures HasKey(Member(k, v, m), j) == HasKey(m, j) && Lookup(Member(k, v, m), j) == Lookup(m, j)
  {}

  lemma CleanObj(m: Members)
    requires CleanMembers(m)
    ensures Clean(Obj(m))
  {}

  lemma RecordKeyUnpaired(n: Names, k: Text)
    requires n.Apart() && Unpaired(k)
    ensures Unpaired(RecordKey(n, k))
  {
    var u := RecordKey(n, k);
    var p := |n.prefix|;
    forall i | 0 <= i < |u| - 1 ensures !PairAt(u, i) {
      if i >= p { assert u[i] == k[i - p] && u[i + 1] == k[i - p + 1] && !PairAt(k, i - p); } else { assert u[i] == n.prefix[i]; }
    }
  }

  lemma {:induction false} RecordDigestsClean(n: Names, h: Hash, m: Members)
    requires n.Apart() && HexDigests(h) && CleanMembers(m)
    ensures CleanMembers(RecordDigests(n, h, m))
  {
    if m.Member? {
      RecordDigestsClean(n, h, m.rest);
      RecordDigestsLack(n, h, m.rest, m.key);
      RecordKeyUnpaired(n, m.key);
    }
  }

  lemma SectionDigestsClean(n: Names, h: Hash, analytics: Json, records: Members)
    requires n.Apart() && HexDigests(h) && CleanMembers(records)
    ensures CleanMembers(SectionDigests(n, h, analytics, records))
  {
    SortedDistinct(records);
    SortedWhole(records);
    RecordDigestsClean(n, h, Sorted(records));
    RecordDigestsLack(n, h, Sorted(records), []);
    CleanMember(n.analytics, Str(DigestOf(h, analytics)), RecordDigests(n, h, Sorted(records)));
  }

  lemma ManifestClean(n: Names, h: Hash, fields: Members, analytics: Json, records: Members)
    requires n.Apart() && HexDigests(h) && CleanMembers(fields) && CleanMembers(records)
    requires !HasKey(fields, n.payload) && !HasKey(fields, n.sections)
    ensures CleanMembers(Manifest(n, h, fields, analytics, records))
  {
    var sections := Obj(SectionDigests(n, h, analytics, records));
    SectionDigestsClean(n, h, analytics, records);
    CleanObj(sections.members);
    CleanMember(n.sections, sections, fields);
    CleanMember(n.payload, Str(DigestOf(h, Payload(n, analytics, records))), Member(n.sections, sections, fields));
  }

  lemma DocumentClean(n: Names, manifest: Members, analytics: Json, records: Members, assurance: Json)
    requires n.Apart() && CleanMembers(manifest) && Clean(analytics) && CleanMembers(records) && Clean(assurance)
    ensures Clean(Document(n, manifest, analytics, records, assurance))
  {
    var last := Member(n.assurance, assurance, NoMembers);
    var third := Member(n.records, Obj(records), last);
    var second := Member(n.analytics, analytics, third);
    CleanObj(manifest);
    CleanObj(records);
    CleanMember(n.assurance, assurance, NoMembers);
    CleanMember(n.records, Obj(records), last);
    Past(n.records, Obj(records), last, n.analytics);
    CleanMember(n.analytics, analytics, third);
    Past(n.analytics, analytics, third, n.manifest);
    Past(n.records, Obj(records), last, n.manifest);
    CleanMember(n.manifest, Obj(manifest), second);
    CleanObj(Member(n.manifest, Obj(manifest), second));
  }

  // ---------------------------------------------------------------- a written package verifies

  /** Reading a member back finds the normal form of what was written under its key. */
  lemma ReadsBack(m: Members, k: Text, v: Json)
    requires DistinctMembers(m) && Lookup(m, k) == Some(v)
    ensures Lookup(NormalMembers(m), k) == Some(Normal(v))
  {
    NormalGet(m, k);
  }

  /** What reading a written document finds under its four keys. */
  lemma DocumentLookups(n: Names, manifest: Members, analytics: Json, records: Members, assurance: Json)
    requires n.Apart() && Distinct(Document(n, manifest, analytics, records, assurance))
    ensures var m := NormalMembers(Document(n, manifest, analytics, records, assurance).members);
            && Lookup(m, n.manifest) == Some(Normal(Obj(manifest)))
            && Lookup(m, n.analytics) == Some(Normal(analytics))
            && Lookup(m, n.records) == Some(Normal(Obj(records)))
            && Lookup(m, n.assurance) == Some(Normal(assurance))
  {
    var d := Document(n, manifest, analytics, records, assurance).members;
    Past(d.key, d.value, d.rest, n.analytics);
    Past(d.key, d.value, d.rest, n.records);
    Past(d.key, d.value, d.rest, n.assurance);
    Past(d.rest.key, d.rest.value, d.rest.rest, n.records);
    Past(d.rest.key, d.rest.value, d.rest.rest, n.assurance);
    Past(d.rest.rest.key, d.rest.rest.value, d.rest.rest.rest, n.assurance);
    ReadsBack(d, n.manifest, Obj(manifest));
    ReadsBack(d, n.analytics, analytics);
    ReadsBack(d, n.records, Obj(records));
    ReadsBack(d, n.assurance, assurance);
  }

  lemma PayloadOfNormal(n: Names, h: Hash, analytics: Json, records: Members)
    requires Distinct(analytics) && DistinctMembers(records)
    ensures DigestOf(h, Payload(n, Normal(analytics), NormalMembers(records))) == DigestOf(h, Payload(n, analytics, records))
  {
    NormalIsOrdered(analytics);
    OrderedIsNormal(Normal(analytics));
    NormalMembersOrdered(records);
    OrderedMembersNormal(NormalMembers(records));
    SamePayload(n, Normal(analytics), NormalMembers(records), analytics, records);
  }

  lemma NormalOne(k: Text, v: Json)
    ensures NormalMembers(Member(k, v, NoMembers)) == Member(k, Normal(v), NoMembers)
  {}

  lemma NormalTwo(k: Text, v: Json, m: Members)
    ensures NormalMembers(Member(k, v, m)) == InsertKey(k, Normal(v), NormalMembers(m))
  {}

  lemma SamePayload(n: Names, a: Json, r: Members, b: Json, s: Members)
    requires Normal(a) == Normal(b) && NormalMembers(r) == NormalMembers(s)
    ensures Normal(Payload(n, a, r)) == Normal(Payload(n, b, s))
  {
    var x := Member(n.records, Obj(r), NoMembers);
    var y := Member(n.records, Obj(s), NoMembers);
    NormalOne(n.records, Obj(r));
    NormalOne(n.records, Obj(s));
    NormalTwo(n.analytics, a, x);
    NormalTwo(n.analytics, b, y);
  }

  lemma ManifestLookups(n: Names, h: Hash, fields: Members, analytics: Json, records: Members)
    requires n.Apart() && DistinctMembers(Manifest(n, h, fields, analytics, records))
    ensures var m := NormalMembers(Manifest(n, h, fields, analytics, records));
            && Lookup(m, n.payload) == Some(Str(DigestOf(h, Payload(n, analytics, records))))
            && Lookup(m, n.sections) == Some(Normal(Obj(SectionDigests(n, h, analytics, records))))
  {
    var m := Manifest(n, h, fields, analytics, records);
    Past(m.key, m.value, m.rest, n.sections);
    ReadsBack(m, n.payload, Str(DigestOf(h, Payload(n, analytics, records))));
    ReadsBack(m, n.sections, Obj(SectionDigests(n, h, analytics, records)));
  }

  /** Reading back what sign_manifest made never finds a manifest digest other than the manifest's own. */
  lemma SignedManifestMatches(n: Names, h: Hash, manifest: Members, signature: Option<Signature>)
    requires n.Apart() && DistinctMembers(manifest) && Distinct(SignManifest(n, h, Obj(manifest), signature))
    ensures ManifestFaults(n, h, NormalMembers(manifest), Some(Normal(SignManifest(n, h, Obj(manifest), signature)))) == {}
  {
    var a := SignManifest(n, h, Obj(manifest), signature).members;
    assert DistinctMembers(a);
    if signature.None? {
      ReadsBack(a, n.status, Str(n.unsigned));
    } else {
      var d := Str(DigestOf(h, Obj(manifest)));
      assert Lookup(a.rest.rest.rest, n.digest) == Some(d);
      assert Lookup(a.rest.rest, n.digest) == Some(d);
      assert Lookup(a.rest, n.digest) == Some(d);
      ReadsBack(a, n.digest, d);
      CanonicalNormal(Obj(manifest));
    }
  }

  lemma SectionsMatch(n: Names, h: Hash, fields: Members, analytics: Json, records: Members)
    requires n.Apart() && HexDigests(h) && Distinct(analytics) && CleanMembers(records)
    requires DistinctMembers(Manifest(n, h, fields, analytics, records))
    ensures SectionFaults(n, h, NormalMembers(Manifest(n, h, fields, analytics, records)), Normal(analytics), NormalMembers(records)) == {}
  {
    ManifestLookups(n, h, fields, analytics, records);
    SectionDigestsOfNormal(n, h, analytics, records);
    SectionDigestsClean(n, h, analytics, records);
    NormalIsOrdered(Obj(SectionDigests(n, h, analytics, records)));
    OrderedIsNormal(Normal(Obj(SectionDigests(n, h, analytics, records))));
  }

  lemma PayloadMatches(n: Names, h: Hash, fields: Members, analytics: Json, records: Members)
    requires n.Apart() && Distinct(analytics) && DistinctMembers(records)
    requires DistinctMembers(Manifest(n, h, fields, analytics, records))
    ensures PayloadFaults(n, h, NormalMembers(Manifest(n, h, fields, analytics, records)), Normal(analytics), NormalMembers(records)) == {}
  {
    ManifestLookups(n, h, fields, analytics, records);
    PayloadOfNormal(n, h, analytics, records);
  }

  /** The checks on a document that reads back as these four parts. */
  lemma VerifyParts(n: Names, h: Hash, content: string, m: Members, manifest: Members, analytics: Json, records: Members, assurance: Json)
    requires Loads(content) == Some(Obj(m))
    requires Lookup(m, n.manifest) == Some(Obj(manifest)) && Lookup(m, n.analytics) == Some(analytics)
    requires Lookup(m, n.records) == Some(Obj(records)) && Lookup(m, n.assurance) == Some(assurance)
    ensures Verify(n, h, content) == Checked(PayloadFaults(n, h, manifest, analytics, records)
      + SectionFaults(n, h, manifest, analytics, records) + ManifestFaults(n, h, manifest, Some(assurance)))
  {}

  /** A package none of whose strings spells out a surrogate pair. */
  lemma WholePackageVerifies(n: Names, h: Hash, fields: Members, analytics: Json, records: Members, signature: Option<Signature>)
    requires n.Apart() && HexDigests(h) && CleanMembers(fields) && Clean(analytics) && CleanMembers(records)
    requires !HasKey(fields, n.payload) && !HasKey(fields, n.sections)
    requires Clean(SignManifest(n, h, Obj(Manifest(n, h, fields, analytics, records)), signature))
    ensures var manifest := Manifest(n, h, fields, analytics, records);
            var document := Document(n, manifest, analytics, records, SignManifest(n, h, Obj(manifest), signature));
            Verify(n, h, Canonical(document)) == Checked({})
  {
    var manifest := Manifest(n, h, fields, analytics, records);
    var assurance := SignManifest(n, h, Obj(manifest), signature);
    var document := Document(n, manifest, analytics, records, assurance);
    ManifestClean(n, h, fields, analytics, records);
    DocumentClean(n, manifest, analytics, records, assurance);
    LoadsWhole(document);
    DocumentLookups(n, manifest, analytics, records, assurance);
    VerifyParts(n, h, Canonical(document), NormalMembers(document.members), NormalMembers(manifest), Normal(analytics), NormalMembers(records), Normal(assurance));
    PayloadMatches(n, h, fields, analytics, records);
    SectionsMatch(n, h, fields, analytics, records);
    SignedManifestMatches(n, h, manifest, signature);
  }

  // ---------------------------------------------------------------- strings that spell out pairs

  lemma NameUnpaired(t: Text)
    requires NoSurrogates(t)
    ensures Unpaired(t)
  {}

  lemma {:induction false} SortedAlike(m: Members, r: Members)
    requires AlikeMembers(m, r)
    ensures AlikeMembers(Sorted(m), Sorted(r))
  {
    if m.Member? {
      SortedAlike(m.rest, r.rest);
      InsertAlike(m.key, m.value, Sorted(m.rest), r.value, Sorted(r.rest));
    }
  }

  lemma {:induction false} RecordDigestsAlike(n: Names, h: Hash, m: Members, r: Members)
    requires AlikeMembers(m, r)
    ensures RecordDigests(n, h, m) == RecordDigests(n, h, r)
  {
    if m.Member? {
      CanonicalAlike(m.value, r.value);
      RecordDigestsAlike(n, h, m.rest, r.rest);
    }
  }

  lemma PayloadAlike(n: Names, analytics: Json, records: Members, analytics': Json, records': Members)
    requires Alike(analytics, analytics') && AlikeMembers(records, records')
    ensures Alike(Payload(n, analytics, records), Payload(n, analytics', records'))
  {
    assert Alike(Obj(records), Obj(records'));
    assert AlikeMembers(NoMembers, NoMembers);
    assert AlikeMembers(Member(n.records, Obj(records), NoMembers), Member(n.records, Obj(records'), NoMembers));
  }

  /** The digests of a package do not see what is written alike. */
  lemma ManifestAlike(n: Names, h: Hash, fields: Members, analytics: Json, records: Members, fields': Members, analytics': Json, records': Members)
    requires AlikeMembers(fields, fields') && Alike(analytics, analytics') && AlikeMembers(records, records')
    ensures AlikeMembers(Manifest(n, h, fields, analytics, records), Manifest(n, h, fields', analytics', records'))
  {
    SortedAlike(records, records');
    RecordDigestsAlike(n, h, Sorted(records), Sorted(records'));
    CanonicalAlike(analytics, analytics');
    PayloadAlike(n, analytics, records, analytics', records');
    CanonicalAlike(Payload(n, analytics, records), Payload(n, analytics', records'));
    AlikeItself(Obj(SectionDigests(n, h, analytics, records)));
  }

  lemma SignedAlike(n: Names, h: Hash, manifest: Members, other: Members, g: Signature, g': Signature)
    requires AlikeMembers(manifest, other)
    requires Alike(Str(g.profile), Str(g'.profile)) && g'.at == g.at && AlikeMembers(g.details, g'.details)
    ensures Alike(SignManifest(n, h, Obj(manifest), Some(g)), SignManifest(n, h, Obj(other), Some(g')))
  {
    CanonicalAlike(Obj(manifest), Obj(other));
    var digest := Str(DigestOf(h, Obj(manifest)));
    var m3, r3 := Member(n.digest, digest, g.details), Member(n.digest, digest, g'.details);
    var m2, r2 := Member(n.signedAt, Stamp(g.at), m3), Member(n.signedAt, Stamp(g.at), r3);
    var m1, r1 := Member(n.profile, Str(g.profile), m2), Member(n.profile, Str(g'.profile), r2);
    assert AlikeMembers(m3, r3);
    assert AlikeMembers(m2, r2);
    assert AlikeMembers(m1, r1);
  }

  lemma DocumentAlike(n: Names, manifest: Members, analytics: Json, records: Members, assurance: Json,
                      manifest': Members, analytics': Json, records': Members, assurance': Json)
    requires AlikeMembers(manifest, manifest') && Alike(analytics, analytics') && AlikeMembers(records, records') && Alike(assurance, assurance')
    ensures Alike(Document(n, manifest, analytics, records, assurance), Document(n, manifest', analytics', records', assurance'))
  {
    var m4, r4 := Member(n.assurance, assurance, NoMembers), Member(n.assurance, assurance', NoMembers);
    var m3, r3 := Member(n.records, Obj(records), m4), Member(n.records, Obj(records'), r4);
    var m2, r2 := Member(n.analytics, analytics, m3), Member(n.analytics, analytics', r3);
    assert AlikeMembers(m4, r4);
    assert AlikeMembers(m3, r3);
    assert AlikeMembers(m2, r2);
  }

  /** Distinct keys everywhere that spell out no surrogate pair, whatever the strings: true of every package the program builds. */
  ghost predicate Keyed(v: Json) { Distinct(v) && Whole(v, true) }

  ghost predicate KeyedMembers(m: Members) { DistinctMembers(m) && WholeMembers(m, true) }

  lemma KeyedRest(m: Members)
    requires KeyedMembers(m) && m.Member?
    ensures Unpaired(m.key) && !HasKey(m.rest, m.key) && Keyed(m.value) && KeyedMembers(m.rest)
  {}

  /** The parts of what a signer makes. */
  lemma SignedParts(n: Names, h: Hash, manifest: Json, g: Signature)
    requires Keyed(SignManifest(n, h, manifest, Some(g)))
    ensures Unpaired(n.status) && Unpaired(n.profile) && Unpaired(n.signedAt) && Unpaired(n.digest) && KeyedMembers(g.details)
    ensures !HasKey(g.details, n.digest) && !HasKey(g.details, n.signedAt) && !HasKey(g.details, n.profile) && !HasKey(g.details, n.status)
  {
    var m0 := SignManifest(n, h, manifest, Some(g)).members;
    KeyedRest(m0);
    KeyedRest(m0.rest);
    KeyedRest(m0.rest.rest);
    KeyedRest(m0.rest.rest.rest);
    Past(m0.rest.rest.key, m0.rest.rest.value, m0.rest.rest.rest, n.profile);
    Past(m0.rest.rest.key, m0.rest.rest.value, m0.rest.rest.rest, n.status);
    Past(m0.rest.key, m0.rest.value, m0.rest.rest, n.status);
    Past(n.digest, m0.rest.rest.rest.value, g.details, n.profile);
    Past(n.digest, m0.rest.rest.rest.value, g.details, n.status);
    Past(n.digest, m0.rest.rest.rest.value, g.details, n.signedAt);
  }

  lemma KeyedJoins(v: Json)
    requires Keyed(v)
    ensures Clean(JoinedAll(v))
  {
    JoinedDistinct(v);
    JoinedIsWhole(v);
  }

  function JoinedSignature(signature: Option<Signature>): Option<Signature> {
    match signature
    case None => None
    case Some(g) => Some(Signature(Joined(g.profile), g.at, JoinedMembers(g.details)))
  }

  lemma AssuranceAlike(n: Names, h: Hash, manifest: Members, other: Members, signature: Option<Signature>)
    requires AlikeMembers(manifest, other) && Keyed(SignManifest(n, h, Obj(manifest), signature))
    ensures Alike(SignManifest(n, h, Obj(manifest), signature), SignManifest(n, h, Obj(other), JoinedSignature(signature)))
  {
    match signature
    case None => AlikeItself(SignManifest(n, h, Obj(manifest), None));
    case Some(g) =>
      SignedParts(n, h, Obj(manifest), g);
      EscapeJoined(g.profile);
      JoinedMembersAlike(g.details);
      SignedAlike(n, h, manifest, other, g, Signature(Joined(g.profile), g.at, JoinedMembers(g.details)));
  }

  lemma SignedClean(n: Names, h: Hash, other: Json, g: Signature)
    requires n.Apart() && HexDigests(h) && KeyedMembers(g.details)
    requires !HasKey(g.details, n.digest) && !HasKey(g.details, n.signedAt) && !HasKey(g.details, n.profile) && !HasKey(g.details, n.status)
    ensures Clean(SignManifest(n, h, other, Some(Signature(Joined(g.profile), g.at, JoinedMembers(g.details)))))
  {
    var d := JoinedMembers(g.details);
    JoinedMembersDistinct(g.details);
    JoinedMembersWhole(g.details);
    JoinedHasKey(g.details, n.digest);
    JoinedHasKey(g.details, n.signedAt);
    JoinedHasKey(g.details, n.profile);
    JoinedHasKey(g.details, n.status);
    JoinedUnpaired(g.profile);
    FrontClean(n, DigestOf(h, other), g.at, Joined(g.profile), d);
  }

  lemma FrontClean(n: Names, digest: Text, at: Moment, profile: Text, d: Members)
    requires n.Apart() && Unpaired(digest) && Unpaired(profile) && CleanMembers(d)
    requires !HasKey(d, n.digest) && !HasKey(d, n.signedAt) && !HasKey(d, n.profile) && !HasKey(d, n.status)
    ensures Clean(Obj(Member(n.status, Str(n.signed), Member(n.profile, Str(profile), Member(n.signedAt, Stamp(at), Member(n.digest, Str(digest), d))))))
  {
    NameUnpaired(n.status);
    NameUnpaired(n.profile);
    NameUnpaired(n.signedAt);
    NameUnpaired(n.digest);
    NameUnpaired(n.signed);
    var r3 := Member(n.digest, Str(digest), d);
    var r2 := Member(n.signedAt, Stamp(at), r3);
    var r1 := Member(n.profile, Str(profile), r2);
    Past(n.digest, Str(digest), d, n.signedAt);
    Past(n.digest, Str(digest), d, n.profile);
    Past(n.digest, Str(digest), d, n.status);
    Past(n.signedAt, Stamp(at), r3, n.profile);
    Past(n.signedAt, Stamp(at), r3, n.status);
    Past(n.profile, Str(profile), r2, n.status);
    CleanMember(n.digest, Str(digest), d);
    CleanMember(n.signedAt, Stamp(at), r3);
    CleanMember(n.profile, Str(profile), r2);
    CleanMember(n.status, Str(n.signed), r1);
  }

  lemma UnsignedClean(n: Names, h: Hash, manifest: Json, other: Json)
    requires n.Apart() && Keyed(SignManifest(n, h, manifest, None))
    ensures Clean(SignManifest(n, h, other, None))
  {
    var m0 := SignManifest(n, h, manifest, None).members;
    NameUnpaired(n.unsigned);
    NameUnpaired(n.none);
    KeyedRest(m0);
    KeyedRest(m0.rest);
    KeyedRest(m0.rest.rest);
    KeyedRest(m0.rest.rest.rest);
    CleanMember(n.signedAt, Null, NoMembers);
    CleanMember(n.keyId, Null, m0.rest.rest.rest.rest);
    CleanMember(n.kind, Str(n.none), m0.rest.rest.rest);
    CleanMember(n.profile, Null, m0.rest.rest);
    CleanMember(n.status, Str(n.unsigned), m0.rest);
  }

  /** What signs the joined manifest is clean when what signs the manifest is keyed. */
  lemma JoinedSignatureClean(n: Names, h: Hash, manifest: Json, other: Json, signature: Option<Signature>)
    requires n.Apart() && HexDigests(h) && Keyed(SignManifest(n, h, manifest, signature))
    ensures Clean(SignManifest(n, h, other, JoinedSignature(signature)))
  {
    match signature
    case None => UnsignedClean(n, h, manifest, other);
    case Some(g) =>
      SignedParts(n, h, manifest, g);
      SignedClean(n, h, other, g);
  }

  /** A package passes its checks when one that is written alike does and has clean parts. */
  lemma AlikePackageVerifies(
    n: Names, h: Hash, fields: Members, analytics: Json, records: Members, signature: Option<Signature>,
    fields': Members, analytics': Json, records': Members, signature': Option<Signature>)
    requires n.Apart() && HexDigests(h)
    requires AlikeMembers(fields, fields') && Alike(analytics, analytics') && AlikeMembers(records, records')
    requires CleanMembers(fields') && Clean(analytics') && CleanMembers(records')
    requires !HasKey(fields', n.payload) && !HasKey(fields', n.sections)
    requires var manifest, manifest' := Manifest(n, h, fields, analytics, records), Manifest(n, h, fields', analytics', records');
             Alike(SignManifest(n, h, Obj(manifest), signature), SignManifest(n, h, Obj(manifest'), signature'))
             && Clean(SignManifest(n, h, Obj(manifest'), signature'))
    ensures var manifest := Manifest(n, h, fields, analytics, records);
            Verify(n, h, Canonical(Document(n, manifest, analytics, records, SignManifest(n, h, Obj(manifest), signature)))) == Checked({})
  {
    var manifest, manifest' := Manifest(n, h, fields, analytics, records), Manifest(n, h, fields', analytics', records');
    var assurance, assurance' := SignManifest(n, h, Obj(manifest), signature), SignManifest(n, h, Obj(manifest'), signature');
    ManifestAlike(n, h, fields, analytics, records, fields', analytics', records');
    DocumentAlike(n, manifest, analytics, records, assurance, manifest', analytics', records', assurance');
    CanonicalAlike(Document(n, manifest, analytics, records, assurance), Document(n, manifest', analytics', records', assurance'));
    WholePackageVerifies(n, h, fields', analytics', records', signature');
  }

  /** Every package as it is written, signed or not, passes the payload, section and manifest digest checks. */
  lemma PackageVerifies(n: Names, h: Hash, fields: Members, analytics: Json, records: Members, signature: Option<Signature>)
    requires n.Apart() && HexDigests(h) && Keyed(Obj(fields)) && Keyed(analytics) && Keyed(Obj(records))
    requires !HasKey(fields, n.payload) && !HasKey(fields, n.sections)
    requires Keyed(SignManifest(n, h, Obj(Manifest(n, h, fields, analytics, records)), signature))
    ensures var manifest := Manifest(n, h, fields, analytics, records);
            Verify(n, h, Canonical(Document(n, manifest, analytics, records, SignManifest(n, h, Obj(manifest), signature)))) == Checked({})
  {
    var fields', analytics', records' := JoinedMembers(fields), JoinedAll(analytics), JoinedMembers(records);
    var manifest, manifest' := Manifest(n, h, fields, analytics, records), Manifest(n, h, fields', analytics', records');
    KeyedJoins(Obj(fields));
    KeyedJoins(analytics);
    KeyedJoins(Obj(records));
    JoinedMembersAlike(fields);
    JoinedAlike(analytics);
    JoinedMembersAlike(records);
    ManifestAlike(n, h, fields, analytics, records, fields', analytics', records');
    AssuranceAlike(n, h, manifest, manifest', signature);
    JoinedSignatureClean(n, h, Obj(manifest), Obj(manifest'), signature);
    JoinedHasKey(fields, n.payload);
    JoinedHasKey(fields, n.sections);
    AlikePackageVerifies(n, h, fields, analytics, records, signature, fields', analytics', records', JoinedSignature(signature));
  }

  /** With a digest that tells the two payloads apart, only the issued payload passes its check. */
  lemma OnlyTheIssuedPayloadPasses(n: Names, h: Hash, fields: Members, analytics: Json, records: Members, other: Json, others: Members)
    requires n.Apart() && Clean(Payload(n, analytics, records)) && Clean(Payload(n, other, others))
    requires DigestOf(h, Payload(n, other, others)) == DigestOf(h, Payload(n, analytics, records)) ==>
               Canonical(Payload(n, other, others)) == Canonical(Payload(n, analytics, records))
    ensures (PayloadFaults(n, h, Manifest(n, h, fields, analytics, records), other, others) == {})
         == (Normal(Payload(n, other, others)) == Normal(Payload(n, analytics, records)))
  {
    CanonicalInjective(Payload(n, other, others), Payload(n, analytics, records));
  }

  /** Different spellings are different names. */
  lemma DifferentNames(a: string, b: string)
    requires a != b
    ensures AsText(a) != AsText(b)
  {
    if AsText(a) == AsText(b) { AsTextInjective(a, b); }
  }

  /** Names spelled apart are apart. */
  lemma SpelledNamesApart(sp: Spelling)
    requires sp.Apart()
    ensures sp.ToNames().Apart()
  {
    DifferentNames(sp.manifest, sp.analytics);
    DifferentNames(sp.manifest, sp.records);
    DifferentNames(sp.manifest, sp.assurance);
    DifferentNames(sp.analytics, sp.records);
    DifferentNames(sp.analytics, sp.assurance);
    DifferentNames(sp.records, sp.assurance);
    DifferentNames(sp.payload, sp.sections);
    DifferentNames(sp.status, sp.profile);
    DifferentNames(sp.status, sp.signedAt);
    DifferentNames(sp.status, sp.digest);
    DifferentNames(sp.profile, sp.signedAt);
    DifferentNames(sp.profile, sp.digest);
    DifferentNames(sp.signedAt, sp.digest);
    DifferentNames(sp.signed, sp.unsigned);
    DifferentNames(sp.signed, sp.pending);
    AsTextKeeps(sp.manifest);
    AsTextKeeps(sp.analytics);
    AsTextKeeps(sp.records);
    AsTextKeeps(sp.assurance);
    AsTextKeeps(sp.payload);
    AsTextKeeps(sp.sections);
    AsTextKeeps(sp.prefix);
    AsTextKeeps(sp.status);
    AsTextKeeps(sp.profile);
    AsTextKeeps(sp.signedAt);
    AsTextKeeps(sp.digest);
    AsTextKeeps(sp.kind);
    AsTextKeeps(sp.keyId);
    AsTextKeeps(sp.signed);
    AsTextKeeps(sp.unsigned);
    AsTextKeeps(sp.pending);
    AsTextKeeps(sp.none);
  }

  lemma ProgramSpellingApart()
    ensures ProgramSpelling().Apart()
  {
    var sp := ProgramSpelling();
    assert sp.analytics[1] != sp.assurance[1];
    assert sp.payload[0] != sp.sections[0];
  }

  /** The names are the strings of this spelling. */
  ghost predicate Spelled(n: Names, spelling: Spelling) { forall sp: Spelling :: sp == spelling ==> sp.ToNames() == n }

  /** The names the program uses. */
  ghost predicate OfProgram(n: Names) { Spelled(n, ProgramSpelling()) }

  lemma SpelledApart(n: Names, spelling: Spelling)
    requires spelling.Apart() && Spelled(n, spelling)
    ensures n.Apart()
  {
    SpelledNamesApart(spelling);
  }

  lemma OfProgramApart(n: Names)
    requires OfProgram(n)
    ensures n.Apart()
  {
    ProgramSpellingApart();
    SpelledApart(n, ProgramSpelling());
  }

  /** The text is this string. */
  ghost predicate Reads(text: Text, s: string) { |text| == |s| && forall i :: 0 <= i < |s| ==> text[i] == s[i] as int }

  lemma SpelledReads(n: Names, sp: Spelling)
    requires Spelled(n, sp)
    ensures Reads(n.manifest, sp.manifest) && Reads(n.analytics, sp.analytics) && Reads(n.records, sp.records) && Reads(n.assurance, sp.assurance)
    ensures Reads(n.payload, sp.payload) && Reads(n.sections, sp.sections) && Reads(n.prefix, sp.prefix)
    ensures Reads(n.status, sp.status) && Reads(n.profile, sp.profile) && Reads(n.signedAt, sp.signedAt) && Reads(n.digest, sp.digest)
    ensures Reads(n.kind, sp.kind) && Reads(n.keyId, sp.keyId) && Reads(n.none, sp.none)
    ensures Reads(n.signed, sp.signed) && Reads(n.unsigned, sp.unsigned) && Reads(n.pending, sp.pending)
  {
    assert sp.ToNames() == n;
    forall s ensures Reads(AsText(s), s) { AsTextKeeps(s); }
  }

  /** What the program's names read. */
  lemma ProgramNamesRead(n: Names)
    requires OfProgram(n)
    ensures Reads(n.manifest, "manifest") && Reads(n.analytics, "analytics") && Reads(n.records, "records") && Reads(n.assurance, "assurance")
    ensures Reads(n.payload, "payload_sha256") && Reads(n.sections, "section_sha256") && Reads(n.prefix, "records/")
    ensures Reads(n.status, "status") && Reads(n.profile, "profile") && Reads(n.signedAt, "signed_at") && Reads(n.digest, "manifest_sha256")
    ensures Reads(n.kind, "type") && Reads(n.keyId, "key_id") && Reads(n.none, "none")
    ensures Reads(n.signed, "signed") && Reads(n.unsigned, "unsigned") && Reads(n.pending, "pending")
  {
    SpelledReads(n, ProgramSpelling());
  }

  /** Under the program's own names: every package as it is written passes the payload, section and manifest digest checks. */
  lemma ProgramPackageVerifies(n: Names, h: Hash, fields: Members, analytics: Json, records: Members, signature: Option<Signature>)
    requires OfProgram(n) && HexDigests(h) && Keyed(Obj(fields)) && Keyed(analytics) && Keyed(Obj(records))
    requires !HasKey(fields, n.payload) && !HasKey(fields, n.sections)
    requires Keyed(SignManifest(n, h, Obj(Manifest(n, h, fields, analytics, records)), signature))
    ensures var manifest := Manifest(n, h, fields, analytics, records);
            Verify(n, h, Canonical(Document(n, manifest, analytics, records, SignManifest(n, h, Obj(manifest), signature)))) == Checked({})
  {
    OfProgramApart(n);
    PackageVerifies(n, h, fields, analytics, records, signature);
  }
}
