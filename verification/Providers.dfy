/** cmd/scanner/main.go, run with Supabase, GCP or Azure beside AWS, against the validator of
    internal/api/handlers.go. */
module Providers {
  import opened Wrappers
  import opened Sorting
  import opened Report
  import opened Aggregate
  import opened ScopeValidation
  import opened Scanner
  import Organization
  import HashPipeline

  datatype Provider = Supabase | Gcp | Azure

  function Prefix(p: Provider): string {
    match p
    case Supabase => "supabase."
    case Gcp => "gcp."
    case Azure => "azure."
  }

  datatype Output = Output(title: string, tier: string, accounts: map<string, CheckResult>)

  /** What a provider answers: its organizations (for Azure its management groups), its projects or
      subscriptions, and the outputs of its checks. */
  datatype Part = Part(owners: seq<string>, units: seq<string>, outputs: map<string, Output>)

  datatype Answer = Failed | Answered(part: Part)

  // ---- one provider's part of the report ----

  predicate Identified(c: AttestedContent, p: Provider) {
    match p
    case Supabase => c.supabaseOrganizationID != ""
    case Gcp => c.gcpOrganizationID != ""
    case Azure => Items(c.azureManagementGroups) != []
  }

  function Listed(c: AttestedContent, p: Provider): seq<string> {
    match p
    case Supabase => Items(c.projectsListed)
    case Gcp => Items(c.gcpProjectsListed)
    case Azure => Items(c.azureSubscriptionsListed)
  }

  function Finished(c: AttestedContent, p: Provider): seq<string> {
    match p
    case Supabase => Items(c.projectsScanned)
    case Gcp => Items(c.gcpProjectsScanned)
    case Azure => Items(c.azureSubscriptionsScanned)
  }

  /** append([]string(nil), s...) is nil for an empty s. */
  function Copied(s: seq<string>): Strings { if s == [] then None else Some(s) }

  /** The report with a provider's scope and checks. */
  function WithPart(c: AttestedContent, p: Provider, part: Part, scanned: seq<string>, checks: map<string, CheckOutput>): AttestedContent
    requires !p.Azure? ==> |part.owners| == 1
  {
    match p
    case Supabase => c.(supabaseOrganizationID := part.owners[0], projectsListed := Copied(part.units),
                        projectsScanned := Copied(scanned), checks := Some(checks))
    case Gcp => c.(gcpOrganizationID := part.owners[0], gcpProjectsListed := Copied(part.units),
                   gcpProjectsScanned := Copied(scanned), checks := Some(checks))
    case Azure => c.(azureManagementGroups := Copied(part.owners), azureSubscriptionsListed := Copied(part.units),
                     azureSubscriptionsScanned := Copied(scanned), checks := Some(checks))
  }

  /** No check ended in an error there; a check without a result there does not count. */
  predicate Complete(part: Part, unit: string) {
    forall k | k in part.outputs ::
      !(unit in part.outputs[k].accounts && part.outputs[k].accounts[unit].status == STATUS_ERROR)
  }

  function CompleteOf(part: Part, units: seq<string>): seq<string> {
    if units == [] then []
    else
      var n := |units| - 1;
      if Complete(part, units[n]) then CompleteOf(part, units[..n]) + [units[n]] else CompleteOf(part, units[..n])
  }

  ghost function OutputOf(quoted: map<string, string>, o: Output): CheckOutput {
    CheckOutput(o.title, o.tier, Aggregated(quoted, o.accounts), Some(o.accounts))
  }

  ghost function Summed(quoted: map<string, string>, outputs: map<string, Output>): map<string, CheckOutput> {
    map k | k in outputs :: OutputOf(quoted, outputs[k])
  }

  /** The checks with a provider's outputs put in. */
  ghost function Merged(quoted: map<string, string>, checks: map<string, CheckOutput>, part: Part): map<string, CheckOutput> {
    checks + Summed(quoted, part.outputs)
  }

  /** One provider's step from report c to report d. */
  ghost predicate IsPart(quoted: map<string, string>, c: AttestedContent, p: Provider, part: Part, d: AttestedContent) {
    && (!p.Azure? ==> |part.owners| == 1)
    && SortedPermutation(GoLess, CompleteOf(part, part.units), Finished(d, p))
    && d == WithPart(c, p, part, Finished(d, p), Merged(quoted, CheckMap(c.checks), part))
  }

  method MakeOutput(quoted: map<string, string>, o: Output) returns (c: CheckOutput)
    ensures c == OutputOf(quoted, o)
  {
    var result := AggregateAccountResults(quoted, o.accounts);
    c := CheckOutput(o.title, o.tier, result, Some(o.accounts));
  }

  /** Outputs not yet put in are to do. */
  ghost predicate Merging(all: map<string, CheckOutput>, checks: map<string, CheckOutput>, todo: set<string>, r: map<string, CheckOutput>) {
    && todo <= all.Keys && r.Keys == checks.Keys + (all.Keys - todo)
    && forall k | k in r :: r[k] == if k in all && k !in todo then all[k] else checks[k]
  }

  lemma MergingNext(all: map<string, CheckOutput>, checks: map<string, CheckOutput>, todo: set<string>, r: map<string, CheckOutput>, k: string)
    requires Merging(all, checks, todo, r) && k in todo
    ensures Merging(all, checks, todo - {k}, r[k := all[k]])
  {
  }

  lemma MergingDone(all: map<string, CheckOutput>, checks: map<string, CheckOutput>, r: map<string, CheckOutput>)
    requires Merging(all, checks, {}, r)
    ensures r == checks + all
  {
  }

  method Merge(quoted: map<string, string>, checks: map<string, CheckOutput>, part: Part) returns (r: map<string, CheckOutput>)
    ensures r == Merged(quoted, checks, part)
  {
    r := checks;
    var todo := part.outputs.Keys;
    ghost var all := Summed(quoted, part.outputs);
    while todo != {}
      invariant Merging(all, checks, todo, r)
    {
      var k :| k in todo;
      MergingNext(all, checks, todo, r, k);
      var output := MakeOutput(quoted, part.outputs[k]);
      r := r[k := output];
      todo := todo - {k};
    }
    MergingDone(all, checks, r);
  }

  method IsComplete(part: Part, unit: string) returns (complete: bool)
    ensures complete <==> Complete(part, unit)
  {
    var todo := part.outputs.Keys;
    while todo != {}
      invariant todo <= part.outputs.Keys
      invariant forall k | k in part.outputs && k !in todo ::
        !(unit in part.outputs[k].accounts && part.outputs[k].accounts[unit].status == STATUS_ERROR)
    {
      var k :| k in todo;
      var accounts := part.outputs[k].accounts;
      if unit in accounts && accounts[unit].status == STATUS_ERROR { return false; }
      todo := todo - {k};
    }
    complete := true;
  }

  /** scanSupabase, scanGCP and scanAzure; None where a Supabase token spans several organizations. */
  method ScanPart(quoted: map<string, string>, c: AttestedContent, p: Provider, part: Part) returns (r: Option<AttestedContent>)
    requires p.Gcp? ==> |part.owners| == 1
    ensures r.None? <==> p.Supabase? && |part.owners| != 1
    ensures r.Some? ==> IsPart(quoted, c, p, part, r.value)
  {
    if p.Supabase? && |part.owners| != 1 { return None; }
    var checks := Merge(quoted, CheckMap(c.checks), part);
    var scanned: seq<string> := [];
    for i := 0 to |part.units|
      invariant scanned == CompleteOf(part, part.units[..i])
    {
      assert part.units[..i + 1][..i] == part.units[..i];
      var complete := IsComplete(part, part.units[i]);
      if complete { scanned := scanned + [part.units[i]]; }
    }
    assert part.units[..|part.units|] == part.units;
    GoLessWeakOrder();
    var sorted := Sort(GoLess, scanned);
    r := Some(WithPart(c, p, part, sorted, checks));
    assert Finished(r.value, p) == sorted;
  }

  // ---- the whole run ----

  type Answers = map<Provider, Answer>

  /** The step for a provider; one that is not configured is not asked. */
  ghost predicate Step(quoted: map<string, string>, answers: Answers, p: Provider, c: AttestedContent, d: AttestedContent) {
    if p in answers then answers[p].Answered? && IsPart(quoted, c, p, answers[p].part, d) else d == c
  }

  /** The three steps, one after the other. */
  ghost predicate Steps(quoted: map<string, string>, answers: Answers, aws: AttestedContent, s: AttestedContent, g: AttestedContent,
                        c: AttestedContent)
  {
    Step(quoted, answers, Supabase, aws, s) && Step(quoted, answers, Gcp, s, g) && Step(quoted, answers, Azure, g, c)
  }

  ghost predicate StepsTo(quoted: map<string, string>, answers: Answers, aws: AttestedContent, c: AttestedContent) {
    exists s, g :: Steps(quoted, answers, aws, s, g, c)
  }

  ghost predicate IsRun(w: World, registry: seq<Check>, answers: Answers, c: AttestedContent)
    requires Organization.FiniteListing(w.pages)
  {
    exists aws :: IsScan(w, registry, aws) && StepsTo(w.quoted, answers, aws, c)
  }

  predicate Fails(answers: Answers, p: Provider) {
    p in answers && (answers[p].Failed? || (p.Supabase? && |answers[p].part.owners| != 1))
  }

  method AskProvider(quoted: map<string, string>, answers: Answers, p: Provider, c: AttestedContent) returns (r: Option<AttestedContent>)
    requires p in answers && p.Gcp? && answers[p].Answered? ==> |answers[p].part.owners| == 1
    ensures r.None? <==> Fails(answers, p)
    ensures r.Some? ==> Step(quoted, answers, p, c, r.value)
  {
    if p !in answers { return Some(c); }
    if answers[p].Failed? { return None; }
    r := ScanPart(quoted, c, p, answers[p].part);
  }

  /** run: a provider that fails ends it without a report. */
  method RunWithProviders(w: World, registry: seq<Check>, answers: Answers) returns (r: Option<AttestedContent>)
    requires Organization.FiniteListing(w.pages)
    requires Gcp in answers && answers[Gcp].Answered? ==> |answers[Gcp].part.owners| == 1
    ensures r.None? <==> Fails(answers, Supabase) || Fails(answers, Gcp) || Fails(answers, Azure)
    ensures r.Some? ==> IsRun(w, registry, answers, r.value)
  {
    var aws := Run(w, registry);
    var s := AskProvider(w.quoted, answers, Supabase, aws);
    if s.None? { return None; }
    var g := AskProvider(w.quoted, answers, Gcp, s.value);
    if g.None? { return None; }
    r := AskProvider(w.quoted, answers, Azure, g.value);
    if r.Some? { assert Steps(w.quoted, answers, aws, s.value, g.value, r.value) && StepsTo(w.quoted, answers, aws, r.value); }
  }

  // ---- what the validator makes of it ----

  /** What the AWS part says; no provider's step touches it. */
  predicate SameAws(c: AttestedContent, d: AttestedContent) {
    && d.organizationVerified == c.organizationVerified && d.orgID == c.orgID && d.noOrganization == c.noOrganization
    && d.organizationWarning == c.organizationWarning && d.accountID == c.accountID
    && d.accountsListed == c.accountsListed && d.accountsScanned == c.accountsScanned
    && d.requestedRegions == c.requestedRegions && d.scannedRegions == c.scannedRegions
  }

  /** None of the provider's checks has the status error there. */
  predicate NoErrorAt(part: Part, unit: string) {
    forall k | k in part.outputs && unit in part.outputs[k].accounts :: part.outputs[k].accounts[unit].status != "error"
  }

  /** A provider's part is in the report, or nothing is said about it. */
  ghost predicate Shows(c: AttestedContent, p: Provider, answers: Answers) {
    if p in answers && answers[p].Answered? then
      && (Identified(c, p) <==> answers[p].part.owners != [] && (p.Azure? || answers[p].part.owners[0] != ""))
      && Listed(c, p) == answers[p].part.units
      && forall u :: u in Finished(c, p) <==> u in answers[p].part.units && NoErrorAt(answers[p].part, u)
    else Silent(c, p)
  }

  predicate Silent(c: AttestedContent, p: Provider) { !Identified(c, p) && Listed(c, p) == [] && Finished(c, p) == [] }

  predicate SameScope(c: AttestedContent, d: AttestedContent, p: Provider) {
    (Identified(d, p) <==> Identified(c, p)) && Listed(d, p) == Listed(c, p) && Finished(d, p) == Finished(c, p)
  }

  lemma {:induction false} CompleteMember(part: Part, units: seq<string>, u: string)
    ensures u in CompleteOf(part, units) <==> u in units && Complete(part, u)
  {
    if units != [] {
      var n := |units| - 1;
      assert units == units[..n] + [units[n]];
      CompleteMember(part, units[..n], u);
    }
  }

  lemma PartShows(quoted: map<string, string>, answers: Answers, p: Provider, c: AttestedContent, d: AttestedContent)
    requires Step(quoted, answers, p, c, d) && Silent(c, p)
    ensures Shows(d, p, answers)
  {
    if p in answers {
      var part := answers[p].part;
      forall u ensures u in Finished(d, p) <==> u in part.units && Complete(part, u) {
        CompleteMember(part, part.units, u);
        assert u in multiset(Finished(d, p)) <==> u in multiset(CompleteOf(part, part.units));
      }
    }
  }

  /** What enumeration and the provider's scan promise: an owner, some units, and for each check of the
      provider's catalogue one result a unit. */
  ghost predicate WellFormed(p: Provider, part: Part) {
    && part.owners != [] && (p.Azure? || (|part.owners| == 1 && part.owners[0] != "")) && part.units != []
    && part.outputs != map[]
    && forall k | k in part.outputs :: Prefix(p) <= k && part.outputs[k].accounts.Keys == Elems(part.units)
  }

  ghost predicate AllWellFormed(answers: Answers) {
    forall p | p in answers && answers[p].Answered? :: WellFormed(p, answers[p].part)
  }

  /** Every check belongs to AWS or to one of the providers. */
  ghost predicate Owned(checks: map<string, CheckOutput>, done: set<Provider>) {
    forall k | k in checks :: "aws." <= k || exists p :: p in done && Prefix(p) <= k
  }

  lemma Heads(p: Provider, q: Provider)
    ensures |Prefix(p)| > 1 && (Prefix(p)[0] == Prefix(q)[0] <==> p == q)
    ensures Prefix(p)[0] == 'a' ==> Prefix(p)[1] == 'z'
  {
  }

  lemma PrefixesApart(p: Provider, q: Provider, k: string)
    requires Prefix(p) <= k
    ensures !("aws." <= k) && (Prefix(q) <= k ==> p == q)
  {
    Heads(p, q);
    assert k[0] == Prefix(p)[0] && k[1] == Prefix(p)[1];
  }

  lemma NotYetOwned(checks: map<string, CheckOutput>, done: set<Provider>, p: Provider, k: string)
    requires Owned(checks, done) && p !in done && Prefix(p) <= k
    ensures k !in checks
  {
    if k in checks {
      PrefixesApart(p, p, k);
      var q :| q in done && Prefix(q) <= k;
      PrefixesApart(p, q, k);
    }
  }

  ghost predicate AllCovered(checks: map<string, CheckOutput>, ids: seq<string>) {
    forall k | k in checks :: Covers(checks[k], ids)
  }

  /** Every one of the IDs is a project or subscription of the provider. */
  predicate AmongUnits(answers: Answers, p: Provider, ids: seq<string>) {
    p in answers && answers[p].Answered? ==> forall id | id in ids :: id in answers[p].part.units
  }

  lemma OutputCovers(p: Provider, part: Part, k: string, quoted: map<string, string>, ids: seq<string>)
    requires WellFormed(p, part) && k in part.outputs
    ensures Covers(OutputOf(quoted, part.outputs[k]), ids) <==> forall id | id in ids :: id in part.units
  {
    forall id ensures id in part.outputs[k].accounts <==> id in part.units {
      assert id in part.outputs[k].accounts.Keys <==> id in Elems(part.units);
    }
  }

  /** A provider's checks cover the listed accounts exactly when those are among its units. */
  lemma StepCovers(quoted: map<string, string>, answers: Answers, p: Provider, done: set<Provider>, c: AttestedContent,
                   d: AttestedContent, ids: seq<string>)
    requires Step(quoted, answers, p, c, d) && AllWellFormed(answers) && p !in done && Owned(CheckMap(c.checks), done)
    ensures Owned(CheckMap(d.checks), done + {p})
    ensures AllCovered(CheckMap(d.checks), ids) <==> AllCovered(CheckMap(c.checks), ids) && AmongUnits(answers, p, ids)
  {
    if p in answers {
      MergedCovers(quoted, p, answers[p].part, done, CheckMap(c.checks), ids);
      MergedOwned(quoted, p, answers[p].part, done, CheckMap(c.checks));
    }
  }

  lemma MergedOwned(quoted: map<string, string>, p: Provider, part: Part, done: set<Provider>, checks: map<string, CheckOutput>)
    requires WellFormed(p, part) && Owned(checks, done)
    ensures Owned(Merged(quoted, checks, part), done + {p})
  {
    forall k | k in Merged(quoted, checks, part) ensures "aws." <= k || exists q :: q in done + {p} && Prefix(q) <= k {
      if k in part.outputs {
        assert p in done + {p} && Prefix(p) <= k;
      } else if !("aws." <= k) {
        var q :| q in done && Prefix(q) <= k;
        assert q in done + {p};
      }
    }
  }

  lemma MergedCovers(quoted: map<string, string>, p: Provider, part: Part, done: set<Provider>, checks: map<string, CheckOutput>,
                     ids: seq<string>)
    requires WellFormed(p, part) && p !in done && Owned(checks, done)
    ensures AllCovered(Merged(quoted, checks, part), ids) <==> AllCovered(checks, ids) && forall id | id in ids :: id in part.units
  {
    var merged := Merged(quoted, checks, part);
    forall k | k in part.outputs ensures merged[k] == OutputOf(quoted, part.outputs[k]) && k !in checks {
      NotYetOwned(checks, done, p, k);
    }
    forall k | k in part.outputs ensures Covers(merged[k], ids) <==> forall id | id in ids :: id in part.units {
      OutputCovers(p, part, k, quoted, ids);
    }
    forall k | k in checks ensures k in merged && merged[k] == checks[k] {
    }
    var some :| some in part.outputs;
    assert some in merged;
  }

  /** The checks with the provider's prefix are its own and cover its units. */
  ghost predicate OwnCovered(answers: Answers, p: Provider, checks: map<string, CheckOutput>) {
    forall k | k in checks && Prefix(p) <= k :: p in answers && answers[p].Answered? && Covers(checks[k], answers[p].part.units)
  }

  lemma OwnStep(quoted: map<string, string>, answers: Answers, p: Provider, done: set<Provider>, c: AttestedContent, d: AttestedContent)
    requires Step(quoted, answers, p, c, d) && AllWellFormed(answers) && p !in done && Owned(CheckMap(c.checks), done)
    ensures OwnCovered(answers, p, CheckMap(d.checks))
  {
    forall k | k in CheckMap(d.checks) && Prefix(p) <= k
      ensures p in answers && answers[p].Answered? && Covers(CheckMap(d.checks)[k], answers[p].part.units)
    {
      NotYetOwned(CheckMap(c.checks), done, p, k);
      OutputCovers(p, answers[p].part, k, quoted, answers[p].part.units);
    }
  }

  lemma OwnKept(quoted: map<string, string>, answers: Answers, p: Provider, q: Provider, c: AttestedContent, d: AttestedContent)
    requires Step(quoted, answers, p, c, d) && AllWellFormed(answers) && p != q && OwnCovered(answers, q, CheckMap(c.checks))
    ensures OwnCovered(answers, q, CheckMap(d.checks))
  {
    if p in answers {
      forall k | k in CheckMap(d.checks) && Prefix(q) <= k ensures k in CheckMap(c.checks) && CheckMap(d.checks)[k] == CheckMap(c.checks)[k] {
        OtherPrefix(q, p, answers[p].part, k);
      }
    }
  }

  lemma OtherPrefix(q: Provider, p: Provider, part: Part, k: string)
    requires WellFormed(p, part) && p != q && Prefix(q) <= k
    ensures k !in part.outputs
  {
    PrefixesApart(q, p, k);
  }

  lemma StepScope(quoted: map<string, string>, answers: Answers, p: Provider, c: AttestedContent, d: AttestedContent, q: Provider)
    requires Step(quoted, answers, p, c, d) && q != p
    ensures SameScope(c, d, q)
  {
  }

  lemma ShowsKept(answers: Answers, c: AttestedContent, d: AttestedContent, q: Provider)
    requires SameScope(c, d, q)
    ensures Shows(c, q, answers) ==> Shows(d, q, answers)
    ensures Silent(c, q) ==> Silent(d, q)
  {
  }

  lemma StepsScope(quoted: map<string, string>, answers: Answers, aws: AttestedContent, s: AttestedContent, g: AttestedContent, c: AttestedContent)
    requires Steps(quoted, answers, aws, s, g, c) && Silent(aws, Supabase) && Silent(aws, Gcp) && Silent(aws, Azure)
    ensures Shows(c, Supabase, answers) && Shows(c, Gcp, answers) && Shows(c, Azure, answers)
  {
    PartShows(quoted, answers, Supabase, aws, s);
    KeptBy(quoted, answers, Supabase, aws, s, Gcp);
    KeptBy(quoted, answers, Supabase, aws, s, Azure);
    PartShows(quoted, answers, Gcp, s, g);
    KeptBy(quoted, answers, Gcp, s, g, Supabase);
    KeptBy(quoted, answers, Gcp, s, g, Azure);
    PartShows(quoted, answers, Azure, g, c);
    KeptBy(quoted, answers, Azure, g, c, Supabase);
    KeptBy(quoted, answers, Azure, g, c, Gcp);
  }

  lemma KeptBy(quoted: map<string, string>, answers: Answers, p: Provider, c: AttestedContent, d: AttestedContent, q: Provider)
    requires Step(quoted, answers, p, c, d) && q != p
    ensures Shows(c, q, answers) ==> Shows(d, q, answers)
    ensures Silent(c, q) ==> Silent(d, q)
  {
    StepScope(quoted, answers, p, c, d, q);
    ShowsKept(answers, c, d, q);
  }

  lemma StepsChecks(quoted: map<string, string>, answers: Answers, aws: AttestedContent, s: AttestedContent, g: AttestedContent,
                    c: AttestedContent, ids: seq<string>)
    requires Steps(quoted, answers, aws, s, g, c) && AllWellFormed(answers) && Owned(CheckMap(aws.checks), {})
    ensures AllCovered(CheckMap(c.checks), ids) <==>
      AllCovered(CheckMap(aws.checks), ids) && AmongUnits(answers, Supabase, ids) && AmongUnits(answers, Gcp, ids) && AmongUnits(answers, Azure, ids)
    ensures OwnCovered(answers, Supabase, CheckMap(c.checks))
    ensures OwnCovered(answers, Gcp, CheckMap(c.checks)) && OwnCovered(answers, Azure, CheckMap(c.checks))
  {
    StepCovers(quoted, answers, Supabase, {}, aws, s, ids);
    StepCovers(quoted, answers, Gcp, {} + {Supabase}, s, g, ids);
    StepCovers(quoted, answers, Azure, {} + {Supabase} + {Gcp}, g, c, ids);
    OwnStep(quoted, answers, Supabase, {}, aws, s);
    OwnKept(quoted, answers, Gcp, Supabase, s, g);
    OwnKept(quoted, answers, Azure, Supabase, g, c);
    OwnStep(quoted, answers, Gcp, {} + {Supabase}, s, g);
    OwnKept(quoted, answers, Azure, Gcp, g, c);
    OwnStep(quoted, answers, Azure, {} + {Supabase} + {Gcp}, g, c);
  }

  lemma AwsOwned(w: World, registry: seq<Check>, aws: AttestedContent)
    requires Organization.FiniteListing(w.pages) && IsScan(w, registry, aws) && forall check | check in registry :: "aws." <= check.id
    ensures Owned(CheckMap(aws.checks), {})
  {
    forall k | k in CheckMap(aws.checks) ensures "aws." <= k {
      var check := Check(k, aws.checks.value[k].title, aws.checks.value[k].tier);
      assert check in registry;
    }
  }

  lemma ContentSilent(w: World, scope: Option<Organization.OrganizationScope>, warning: string, scanned: Strings, checks: Checks, p: Provider)
    ensures Silent(ContentOf(w, scope, warning, scanned, checks), p)
  {
  }

  lemma AwsSilent(w: World, registry: seq<Check>, aws: AttestedContent, p: Provider)
    requires Organization.FiniteListing(w.pages) && IsScan(w, registry, aws)
    ensures Silent(aws, p)
  {
    ContentSilent(w, ScopeFound(w), Warnings(w, FirstWarning(w), Targets(w)), aws.accountsScanned, aws.checks, p);
  }

  ghost predicate ProviderAccepted(c: AttestedContent, p: Provider) {
    ProviderScopeAccepted(CheckMap(c.checks), Prefix(p), Identified(c, p), Listed(c, p), Finished(c, p))
  }

  /** A provider's own part is always in order. */
  lemma PartAccepted(answers: Answers, p: Provider, c: AttestedContent)
    requires AllWellFormed(answers) && Shows(c, p, answers) && OwnCovered(answers, p, CheckMap(c.checks))
    ensures ProviderAccepted(c, p)
  {
  }

  /** The conditions of the validator, sorted by whom they are about. */
  ghost predicate AwsAccepted(c: AttestedContent) {
    var listed := Items(c.accountsListed);
    && listed != [] && (if c.noOrganization then c.orgID == "" && |listed| == 1 else c.orgID != "")
    && forall id | id in Items(c.accountsScanned) :: id in listed
  }

  lemma OrganizationParts(c: AttestedContent)
    ensures OrganizationAccepted(c) <==>
      && AwsAccepted(c) && AllCovered(CheckMap(c.checks), Items(c.accountsListed))
      && ProviderAccepted(c, Supabase) && ProviderAccepted(c, Gcp) && ProviderAccepted(c, Azure)
  {
  }

  /** The listed accounts are among the units of every provider that answered. */
  predicate AccountsAreUnits(answers: Answers, accounts: seq<string>) {
    AmongUnits(answers, Supabase, accounts) && AmongUnits(answers, Gcp, accounts) && AmongUnits(answers, Azure, accounts)
  }

  /** Each provider's own part of the final report is in order. */
  lemma StepsParts(quoted: map<string, string>, answers: Answers, aws: AttestedContent, s: AttestedContent, g: AttestedContent, c: AttestedContent)
    requires Steps(quoted, answers, aws, s, g, c) && AllWellFormed(answers) && Owned(CheckMap(aws.checks), {})
    requires Silent(aws, Supabase) && Silent(aws, Gcp) && Silent(aws, Azure)
    ensures ProviderAccepted(c, Supabase) && ProviderAccepted(c, Gcp) && ProviderAccepted(c, Azure)
  {
    StepsScope(quoted, answers, aws, s, g, c);
    StepsChecks(quoted, answers, aws, s, g, c, []);
    PartAccepted(answers, Supabase, c);
    PartAccepted(answers, Gcp, c);
    PartAccepted(answers, Azure, c);
  }

  /** What the steps make of the whole verdict on an AWS report. */
  lemma StepsVerdict(quoted: map<string, string>, answers: Answers, aws: AttestedContent, c: AttestedContent)
    requires StepsTo(quoted, answers, aws, c) && AllWellFormed(answers) && Owned(CheckMap(aws.checks), {})
    requires Silent(aws, Supabase) && Silent(aws, Gcp) && Silent(aws, Azure) && OrganizationAccepted(aws)
    ensures OrganizationAccepted(c) <==> AccountsAreUnits(answers, Items(aws.accountsListed))
  {
    var s, g :| Steps(quoted, answers, aws, s, g, c);
    StepsParts(quoted, answers, aws, s, g, c);
    StepsChecks(quoted, answers, aws, s, g, c, Items(aws.accountsListed));
    StepsSameAws(quoted, answers, aws, c);
    OrganizationParts(aws);
    OrganizationParts(c);
  }

  lemma StepsAccepted(w: World, registry: seq<Check>, answers: Answers, aws: AttestedContent, c: AttestedContent)
    requires Organization.FiniteListing(w.pages) && IsScan(w, registry, aws) && StepsTo(w.quoted, answers, aws, c)
    requires AllWellFormed(answers) && forall check | check in registry :: "aws." <= check.id
    ensures aws.organizationVerified ==> (OrganizationAccepted(c) <==> AccountsAreUnits(answers, Items(aws.accountsListed)))
  {
    AwsSilent(w, registry, aws, Supabase);
    AwsSilent(w, registry, aws, Gcp);
    AwsSilent(w, registry, aws, Azure);
    AwsOwned(w, registry, aws);
    if aws.organizationVerified {
      VerifiedPartAccepted(w, registry, aws);
      StepsVerdict(w.quoted, answers, aws, c);
    }
  }

  lemma ScanAccepted(w: World, registry: seq<Check>, aws: AttestedContent, c: AttestedContent)
    requires Organization.FiniteListing(w.pages) && IsScan(w, registry, aws) && SameAws(aws, c)
    ensures ScopeAccepted(c) <==> AnyScanned(w) && (c.organizationVerified ==> OrganizationAccepted(c))
  {
    SomeScanned(w, registry, aws);
    if !aws.organizationVerified { UnverifiedPartWarns(w, registry, aws); }
  }

  lemma RunVerdict(w: World, registry: seq<Check>, answers: Answers, aws: AttestedContent, c: AttestedContent)
    requires Organization.FiniteListing(w.pages) && IsScan(w, registry, aws) && StepsTo(w.quoted, answers, aws, c)
    requires AllWellFormed(answers) && forall check | check in registry :: "aws." <= check.id
    ensures ScopeAccepted(c) <==> AnyScanned(w) && (c.organizationVerified ==> AccountsAreUnits(answers, Items(c.accountsListed)))
  {
    StepsSameAws(w.quoted, answers, aws, c);
    StepsAccepted(w, registry, answers, aws, c);
    ScanAccepted(w, registry, aws, c);
  }

  /** ACCEPTED WITH PROVIDERS: the ingest handler lets the report of a whole run through exactly when some
      account was scanned and, if the organization was verified, every listed AWS account is also a
      project or subscription of every other provider that was scanned. */
  lemma RunAccepted(w: World, registry: seq<Check>, answers: Answers, c: AttestedContent)
    requires Organization.FiniteListing(w.pages) && IsRun(w, registry, answers, c) && AllWellFormed(answers)
    requires forall check | check in registry :: "aws." <= check.id
    ensures ScopeAccepted(c) <==> AnyScanned(w) && (c.organizationVerified ==> AccountsAreUnits(answers, Items(c.accountsListed)))
  {
    var aws :| IsScan(w, registry, aws) && StepsTo(w.quoted, answers, aws, c);
    RunVerdict(w, registry, answers, aws, c);
  }

  lemma RunShows(w: World, registry: seq<Check>, answers: Answers, c: AttestedContent)
    requires Organization.FiniteListing(w.pages) && IsRun(w, registry, answers, c)
    ensures Shows(c, Supabase, answers) && Shows(c, Gcp, answers) && Shows(c, Azure, answers)
  {
    var aws :| IsScan(w, registry, aws) && StepsTo(w.quoted, answers, aws, c);
    AwsSilent(w, registry, aws, Supabase);
    AwsSilent(w, registry, aws, Gcp);
    AwsSilent(w, registry, aws, Azure);
    StepsShow(w.quoted, answers, aws, c);
  }

  lemma StepsShow(quoted: map<string, string>, answers: Answers, aws: AttestedContent, c: AttestedContent)
    requires StepsTo(quoted, answers, aws, c) && Silent(aws, Supabase) && Silent(aws, Gcp) && Silent(aws, Azure)
    ensures Shows(c, Supabase, answers) && Shows(c, Gcp, answers) && Shows(c, Azure, answers)
  {
    var s, g :| Steps(quoted, answers, aws, s, g, c);
    StepsScope(quoted, answers, aws, s, g, c);
  }

  /** REFUSED: so a run over a verified organization and one more provider is refused as soon as the
      management account is not among that provider's projects or subscriptions. */
  lemma ProviderRunRefused(w: World, registry: seq<Check>, answers: Answers, c: AttestedContent, p: Provider)
    requires Organization.FiniteListing(w.pages) && IsRun(w, registry, answers, c) && AllWellFormed(answers)
    requires forall check | check in registry :: "aws." <= check.id
    requires ManagementAccount(w) != "" && Scope(w).Some?
    requires p in answers && answers[p].Answered? && ManagementAccount(w) !in answers[p].part.units
    ensures !ScopeAccepted(c)
  {
    RunAccepted(w, registry, answers, c);
    RunListsAccounts(w, registry, answers, c);
    Organization.EnumerationGuarantees(w.description, w.pages, ManagementAccount(w));
  }

  lemma StepSameAws(quoted: map<string, string>, answers: Answers, p: Provider, c: AttestedContent, d: AttestedContent)
    requires Step(quoted, answers, p, c, d)
    ensures SameAws(c, d)
  {
  }

  lemma ScanLists(w: World, registry: seq<Check>, aws: AttestedContent)
    requires Organization.FiniteListing(w.pages) && IsScan(w, registry, aws) && ManagementAccount(w) != "" && Scope(w).Some?
    ensures aws.organizationVerified && Items(aws.accountsListed) == Scope(w).value.accounts
  {
  }

  lemma RunListsAccounts(w: World, registry: seq<Check>, answers: Answers, c: AttestedContent)
    requires Organization.FiniteListing(w.pages) && IsRun(w, registry, answers, c)
    requires ManagementAccount(w) != "" && Scope(w).Some?
    ensures c.organizationVerified && Items(c.accountsListed) == Scope(w).value.accounts
  {
    var aws :| IsScan(w, registry, aws) && StepsTo(w.quoted, answers, aws, c);
    ScanLists(w, registry, aws);
    StepsSameAws(w.quoted, answers, aws, c);
  }

  lemma StepsSameAws(quoted: map<string, string>, answers: Answers, aws: AttestedContent, c: AttestedContent)
    requires StepsTo(quoted, answers, aws, c)
    ensures SameAws(aws, c)
  {
    var s, g :| Steps(quoted, answers, aws, s, g, c);
    StepSameAws(quoted, answers, Supabase, aws, s);
    StepSameAws(quoted, answers, Gcp, s, g);
    StepSameAws(quoted, answers, Azure, g, c);
  }

  // ---- whose checks the report holds ----

  /** The provider was asked for this check. */
  predicate Gives(answers: Answers, p: Provider, k: string) { p in answers && answers[p].Answered? && k in answers[p].part.outputs }

  /** The check stands in the report as the provider gave it. */
  ghost predicate Given(quoted: map<string, string>, answers: Answers, p: Provider, k: string, c: AttestedContent)
    requires Gives(answers, p, k)
  {
    var o := answers[p].part.outputs[k];
    && k in CheckMap(c.checks)
    && var r := CheckMap(c.checks)[k];
       r.title == o.title && r.tier == o.tier && r.accounts == Some(o.accounts) && r.result == Aggregated(quoted, o.accounts)
  }

  predicate SameCheck(c: AttestedContent, d: AttestedContent, k: string) {
    (k in CheckMap(d.checks) <==> k in CheckMap(c.checks)) && (k in CheckMap(c.checks) ==> CheckMap(d.checks)[k] == CheckMap(c.checks)[k])
  }

  lemma StepCheck(quoted: map<string, string>, answers: Answers, p: Provider, c: AttestedContent, d: AttestedContent, k: string)
    requires Step(quoted, answers, p, c, d)
    ensures if Gives(answers, p, k) then Given(quoted, answers, p, k, d) else SameCheck(c, d, k)
  {
  }

  lemma NotGiven(answers: Answers, p: Provider, q: Provider, k: string)
    requires AllWellFormed(answers) && Gives(answers, p, k) && Gives(answers, q, k)
    ensures p == q && !("aws." <= k)
  {
    PrefixesApart(p, q, k);
  }

  lemma StepsCheck(quoted: map<string, string>, answers: Answers, aws: AttestedContent, c: AttestedContent, k: string)
    requires StepsTo(quoted, answers, aws, c) && AllWellFormed(answers)
    ensures forall p | Gives(answers, p, k) :: Given(quoted, answers, p, k, c)
    ensures (forall p :: !Gives(answers, p, k)) ==> SameCheck(aws, c, k)
  {
    var s, g :| Steps(quoted, answers, aws, s, g, c);
    StepCheck(quoted, answers, Supabase, aws, s, k);
    StepCheck(quoted, answers, Gcp, s, g, k);
    StepCheck(quoted, answers, Azure, g, c, k);
    forall p | Gives(answers, p, k) ensures Given(quoted, answers, p, k, c) {
      forall q | Gives(answers, q, k) ensures q == p { NotGiven(answers, p, q, k); }
    }
  }

  /** The check is in the report if and only if it is registered or some provider gave it; a registered one has the
      results of the AWS accounts, a provider's is as it was given. */
  ghost predicate HoldsCheck(w: World, registry: seq<Check>, answers: Answers, c: AttestedContent, k: string, a: string) {
    && (k in CheckMap(c.checks) <==> Registered(registry, k) || exists p :: Gives(answers, p, k))
    && (forall p | Gives(answers, p, k) :: Given(w.quoted, answers, p, k, c))
    && (Registered(registry, k) ==> Reports(w, c, k, a))
  }

  lemma KeptResult(w: World, answers: Answers, aws: AttestedContent, c: AttestedContent, k: string, a: string)
    requires StepsTo(w.quoted, answers, aws, c) && AllWellFormed(answers) && "aws." <= k && Reports(w, aws, k, a)
    ensures Reports(w, c, k, a)
  {
    StepsCheck(w.quoted, answers, aws, c, k);
    forall p ensures !Gives(answers, p, k) { if Gives(answers, p, k) { NotGiven(answers, p, p, k); } }
    StepsSameAws(w.quoted, answers, aws, c);
    SameReport(w, aws, c, k, a);
  }

  /** WHOSE CHECKS: the report of a whole run holds the checks of the AWS registry and those the providers gave, and
      nothing else. */
  lemma RunChecks(w: World, registry: seq<Check>, answers: Answers, c: AttestedContent, k: string, a: string)
    requires Organization.FiniteListing(w.pages) && IsRun(w, registry, answers, c) && AllWellFormed(answers)
    requires Registered(registry, k) ==> "aws." <= k
    ensures HoldsCheck(w, registry, answers, c, k, a)
  {
    var aws :| IsScan(w, registry, aws) && StepsTo(w.quoted, answers, aws, c);
    ReportedResults(w, registry, aws, k, a);
    CheckKept(w, registry, answers, aws, c, k, a);
  }

  lemma CheckKept(w: World, registry: seq<Check>, answers: Answers, aws: AttestedContent, c: AttestedContent, k: string, a: string)
    requires StepsTo(w.quoted, answers, aws, c) && AllWellFormed(answers)
    requires (k in CheckMap(aws.checks) <==> Registered(registry, k)) && (Registered(registry, k) ==> "aws." <= k && Reports(w, aws, k, a))
    ensures HoldsCheck(w, registry, answers, c, k, a)
  {
    StepsCheck(w.quoted, answers, aws, c, k);
    if Registered(registry, k) { KeptResult(w, answers, aws, c, k, a); }
  }

  lemma SameReport(w: World, c: AttestedContent, d: AttestedContent, k: string, a: string)
    requires SameAws(c, d)
    ensures InReport(c, a) <==> InReport(d, a)
    ensures forall r :: Tells(w, c, k, a, r) <==> Tells(w, d, k, a, r)
  {
  }

  // ---- what the ledger makes of it ----

  lemma ScanRegions(w: World, registry: seq<Check>, aws: AttestedContent)
    requires Organization.FiniteListing(w.pages) && IsScan(w, registry, aws)
    ensures aws.requestedRegions == w.requestedRegions && aws.scannedRegions == w.scannedRegions
    ensures aws.organizationVerified <==> aws.accountsListed.Some?
  {
  }

  /** NOT STORED: an accepted report of a scan over an unverified organization lists no account, not even an
      empty list, so a database made by the migrations refuses the row; an upgraded one takes every
      accepted report. */
  lemma RunStored(w: World, registry: seq<Check>, answers: Answers, c: AttestedContent)
    requires Organization.FiniteListing(w.pages) && IsRun(w, registry, answers, c) && ScopeAccepted(c)
    requires w.requestedRegions.Some? && w.scannedRegions.Some?
    ensures HashPipeline.Stored(HashPipeline.Upgraded, HashPipeline.ToNewVerdict(c)).Some?
    ensures HashPipeline.Stored(HashPipeline.Migrated, HashPipeline.ToNewVerdict(c)).Some? <==> c.organizationVerified
  {
    var aws :| IsScan(w, registry, aws) && StepsTo(w.quoted, answers, aws, c);
    ScanRegions(w, registry, aws);
    StepsSameAws(w.quoted, answers, aws, c);
    HashPipeline.AcceptedStored(c, HashPipeline.Migrated);
    HashPipeline.AcceptedStored(c, HashPipeline.Upgraded);
  }

  // ---- one such run ----

  const MANAGEMENT := "111122223333"
  const PROJECT := "abcdefghijklmnopqrst"

  /** A verified single account; no member role is needed. */
  function SingleAccount(): World {
    World("1.0", true, "", Some(["us-east-1"]), Some(["us-east-1"]), "", Identity(Some(MANAGEMENT)), Organization.NotInUse,
          [Organization.Page([], None)], "", map[], map[], map[])
  }

  /** One Supabase project that passes the one check there is. */
  function OneProject(): Part {
    Part(["org"], [PROJECT],
         map["supabase.rls_probe" := Output("Public Data API", "probe", map[PROJECT := CheckResult(STATUS_PASS, None, 1, "", None)])])
  }

  lemma OneProjectFormed()
    ensures WellFormed(Supabase, OneProject())
  {
    assert "supabase.rls_probe"[..9] == Prefix(Supabase);
    assert Elems([PROJECT]) == {PROJECT};
    assert "supabase.rls_probe" in OneProject().outputs;
  }

  lemma SingleAccountVerified(w: World)
    requires w == SingleAccount()
    ensures Organization.FiniteListing(w.pages) && ManagementAccount(w) == MANAGEMENT && Scope(w).Some?
  {
    assert Organization.Ends(w.pages[0]);
  }

  lemma OneProjectRefused(w: World, answers: Answers, c: AttestedContent)
    requires w == SingleAccount() && answers == map[Supabase := Answered(OneProject())]
    requires Organization.FiniteListing(w.pages) && IsRun(w, [], answers, c)
    ensures c.organizationVerified && Listed(c, Supabase) == [PROJECT] && !ScopeAccepted(c)
  {
    SingleAccountVerified(w);
    OneProjectFormed();
    ProviderRunRefused(w, [], answers, c, Supabase);
    RunListsAccounts(w, [], answers, c);
    RunShows(w, [], answers, c);
  }

  /** A scan of one verified account and one Supabase project, which the ingest handler refuses. */
  method RefusedRun() returns (c: AttestedContent)
    ensures c.organizationVerified && Items(c.projectsListed) == [PROJECT] && !ScopeAccepted(c)
  {
    var w, answers := SingleAccount(), map[Supabase := Answered(OneProject())];
    SingleAccountVerified(w);
    var r := RunWithProviders(w, [], answers);
    c := r.value;
    OneProjectRefused(w, answers, c);
  }
}
