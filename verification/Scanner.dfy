/** cmd/scanner/main.go, run: one AWS-only scan, for every outcome of the calls it makes. */
module Scanner {
  import opened Wrappers
  import opened Sorting
  import opened Report
  import opened Aggregate
  import Organization
  import opened ScopeValidation

  datatype Identity = IdentityFailed(error: string) | Identity(account: Option<string>)

  datatype Ran = RunFailed(error: string) | RunDone(result: CheckResult)

  datatype Check = Check(id: string, title: string, tier: string)

  /** What the outside world answers during one scan. A check without an entry in results fails. */
  datatype World = World(
    version: string, timeVerified: bool, timeWarning: string,
    requestedRegions: Strings, scannedRegions: Strings, regionsWarning: string,
    identity: Identity,
    description: Organization.Description, pages: seq<Organization.Page>, enumerationError: string,
    refused: map<string, string>,
    results: map<(string, string), Ran>,
    quoted: map<string, string>)

  function ManagementAccount(w: World): string {
    if w.identity.IdentityFailed? then "" else w.identity.account.GetOr("")
  }

  ghost function Scope(w: World): Option<Organization.OrganizationScope>
    requires Organization.FiniteListing(w.pages)
  {
    Organization.Enumerated(w.description, w.pages, ManagementAccount(w))
  }

  /** The accounts the loop goes through. */
  ghost function Targets(w: World): seq<string>
    requires Organization.FiniteListing(w.pages)
  {
    if ManagementAccount(w) == "" then ["unknown"]
    else if Scope(w).None? then [ManagementAccount(w)]
    else Scope(w).value.accounts
  }

  /** Other accounts than the management account are entered through a role. */
  predicate Refused(w: World, a: string) {
    ManagementAccount(w) != "" && a != ManagementAccount(w) && a in w.refused
  }

  function RanAs(w: World, checkID: string, a: string): CheckResult {
    var ran := if (checkID, a) in w.results then w.results[(checkID, a)] else RunFailed("");
    if ran.RunFailed? then CheckResult(STATUS_ERROR, Some([ran.error]), 0, "", None) else ran.result
  }

  const REFUSED_RESULT :=
    CheckResult(STATUS_ERROR, Some(["account scan failed; see organization_warning"]), 0, "", None)

  /** The result of one check in one account. */
  function AccountResult(w: World, checkID: string, a: string): CheckResult {
    if Refused(w, a) then REFUSED_RESULT else RanAs(w, checkID, a)
  }

  function IDs(registry: seq<Check>): set<string> { set c | c in registry :: c.id }

  // ---- warnings ----

  function AppendWarning(existing: string, next: string): string {
    if existing == "" then next else existing + "; " + next
  }

  function RefusalMessage(w: World, a: string): string
    requires Refused(w, a)
  {
    "account " + a + " was listed but not scanned: " + w.refused[a]
  }

  function Warnings(w: World, first: string, accounts: seq<string>): string {
    if accounts == [] then first
    else
      var n := |accounts| - 1;
      var rest := Warnings(w, first, accounts[..n]);
      if Refused(w, accounts[n]) then AppendWarning(rest, RefusalMessage(w, accounts[n])) else rest
  }

  ghost function FirstWarning(w: World): string
    requires Organization.FiniteListing(w.pages)
  {
    if ManagementAccount(w) == "" then "could not enumerate AWS Organizations without a verified management account ID"
    else if Scope(w).None? then "could not enumerate AWS Organizations: " + w.enumerationError
    else ""
  }

  // ---- the report ----

  predicate Scanned(w: World, a: string) { !Refused(w, a) && a != "unknown" }

  function ScannedOf(w: World, accounts: seq<string>): seq<string> {
    if accounts == [] then []
    else
      var n := |accounts| - 1;
      if Scanned(w, accounts[n]) then ScannedOf(w, accounts[..n]) + [accounts[n]] else ScannedOf(w, accounts[..n])
  }

  /** Exactly one result for each of the accounts. */
  ghost predicate CoversExactly(w: World, k: string, accounts: set<string>, output: CheckOutput) {
    && output.accounts.Some? && output.accounts.value.Keys == accounts
    && forall a | a in accounts :: output.accounts.value[a] == AccountResult(w, k, a)
  }

  /** Every registered check under its title, nothing else, with one result for each of the accounts. */
  ghost predicate Covered(w: World, registry: seq<Check>, accounts: set<string>, checks: map<string, CheckOutput>) {
    && checks.Keys == IDs(registry)
    && forall k | k in checks ::
         Check(k, checks[k].title, checks[k].tier) in registry && CoversExactly(w, k, accounts, checks[k])
  }

  /** The fields a scan sets. No other provider is asked. */
  function ContentOf(w: World, scope: Option<Organization.OrganizationScope>, warning: string, scanned: Strings, checks: Checks): AttestedContent {
    Fields(
      w.version, scope.Some?, if scope.Some? then scope.value.organizationID else "",
      scope.Some? && scope.value.noOrganization, warning,
      if scope.Some? then Some(scope.value.accounts) else None, scanned,
      "", None, None, "", None, None, None, None, None,
      ManagementAccount(w), w.identity.Identity?,
      if w.identity.Identity? then "" else "could not confirm which AWS account this scan covers: " + w.identity.error,
      w.timeVerified, w.timeWarning, w.requestedRegions, w.scannedRegions, w.regionsWarning, checks)
  }

  /** What enumeration gives, if it is tried at all. */
  ghost function ScopeFound(w: World): Option<Organization.OrganizationScope>
    requires Organization.FiniteListing(w.pages)
  {
    if ManagementAccount(w) == "" then None else Scope(w)
  }

  /** The report of an AWS-only scan. */
  ghost predicate IsScan(w: World, registry: seq<Check>, c: AttestedContent)
    requires Organization.FiniteListing(w.pages)
  {
    && c.checks.Some? && Covered(w, registry, Elems(Targets(w)), c.checks.value)
    && SortedPermutation(GoLess, ScannedOf(w, Targets(w)), Items(c.accountsScanned))
    && c == ContentOf(w, ScopeFound(w), Warnings(w, FirstWarning(w), Targets(w)), c.accountsScanned, c.checks)
  }

  const NO_RESULT := CheckResult("", None, 0, "", None)

  function SetResult(output: CheckOutput, a: string, result: CheckResult): CheckOutput {
    output.(accounts := Some(AccountMap(output)[a := result]))
  }

  lemma SetCovers(w: World, k: string, done: set<string>, a: string, output: CheckOutput)
    requires CoversExactly(w, k, done, output)
    ensures CoversExactly(w, k, done + {a}, SetResult(output, a, AccountResult(w, k, a)))
  {
  }

  lemma SetTwice(output: CheckOutput, a: string, result: CheckResult)
    ensures SetResult(SetResult(output, a, result), a, result) == SetResult(output, a, result)
  {
    assert AccountMap(output)[a := result][a := result] == AccountMap(output)[a := result];
  }

  /** Sets one account's result in every check. */
  method Record(w: World, registry: seq<Check>, done: set<string>, a: string, checks: map<string, CheckOutput>)
    returns (r: map<string, CheckOutput>)
    requires Covered(w, registry, done, checks)
    ensures Covered(w, registry, done + {a}, r)
  {
    r := checks;
    ghost var seen: set<string> := {};
    for i := 0 to |registry|
      invariant r.Keys == checks.Keys && seen == IDs(registry[..i])
      invariant forall k | k in r :: r[k] == if k in seen then SetResult(checks[k], a, AccountResult(w, k, a)) else checks[k]
    {
      var id := registry[i].id;
      NextID(registry, i);
      SetTwice(checks[id], a, AccountResult(w, id, a));
      r := r[id := SetResult(r[id], a, if Refused(w, a) then REFUSED_RESULT else RanAs(w, id, a))];
      seen := seen + {id};
    }
    assert registry[..|registry|] == registry;
    forall k | k in r ensures CoversExactly(w, k, done + {a}, r[k]) {
      SetCovers(w, k, done, a, checks[k]);
    }
  }

  lemma NextID(registry: seq<Check>, i: nat)
    requires i < |registry|
    ensures IDs(registry[..i + 1]) == IDs(registry[..i]) + {registry[i].id} && registry[i].id in IDs(registry)
  {
    assert registry[..i + 1] == registry[..i] + [registry[i]];
    assert registry[i] in registry;
  }

  method Allocate(w: World, registry: seq<Check>) returns (checks: map<string, CheckOutput>)
    ensures Covered(w, registry, {}, checks)
  {
    checks := map[];
    for i := 0 to |registry|
      invariant checks.Keys == IDs(registry[..i])
      invariant forall k | k in checks :: checks[k].accounts == Some(map[]) && Check(k, checks[k].title, checks[k].tier) in registry
    {
      NextID(registry, i);
      assert registry[i] == Check(registry[i].id, registry[i].title, registry[i].tier);
      checks := checks[registry[i].id := CheckOutput(registry[i].title, registry[i].tier, NO_RESULT, Some(map[]))];
    }
    assert registry[..|registry|] == registry;
  }

  ghost function Summed(w: World, output: CheckOutput): CheckOutput {
    output.(result := Aggregated(w.quoted, AccountMap(output)))
  }

  method SummariseOne(w: World, output: CheckOutput) returns (r: CheckOutput)
    ensures r == output.(result := r.result) && Summed(w, r) == r
  {
    var result := AggregateAccountResults(w.quoted, AccountMap(output));
    r := output.(result := result);
  }

  method Summarise(w: World, registry: seq<Check>, checks: map<string, CheckOutput>) returns (r: map<string, CheckOutput>)
    requires checks.Keys == IDs(registry)
    ensures r.Keys == checks.Keys && Aggregates(w, r)
    ensures forall k | k in r :: r[k] == checks[k].(result := r[k].result)
  {
    r := checks;
    ghost var seen: set<string> := {};
    for i := 0 to |registry|
      invariant r.Keys == checks.Keys && seen == IDs(registry[..i])
      invariant forall k | k in r :: r[k] == checks[k].(result := r[k].result)
      invariant forall k | k in seen :: Summed(w, r[k]) == r[k]
    {
      var id := registry[i].id;
      NextID(registry, i);
      var output := SummariseOne(w, r[id]);
      r := r[id := output];
      seen := seen + {id};
    }
    assert registry[..|registry|] == registry;
  }

  lemma SummedCovers(w: World, registry: seq<Check>, accounts: set<string>, checks: map<string, CheckOutput>, r: map<string, CheckOutput>)
    requires Covered(w, registry, accounts, checks)
    requires r.Keys == checks.Keys && forall k | k in r :: r[k] == checks[k].(result := r[k].result)
    ensures Covered(w, registry, accounts, r)
  {
    forall k | k in r ensures CoversExactly(w, k, accounts, r[k]) {
      assert CoversExactly(w, k, accounts, checks[k]);
    }
  }

  /** The top-level result of every check is the aggregate of its per-account results. */
  ghost predicate Aggregates(w: World, checks: map<string, CheckOutput>) {
    forall k | k in checks :: Summed(w, checks[k]) == checks[k]
  }

  /** What the account loop has made of the first i accounts. */
  ghost predicate ScannedUpTo(w: World, registry: seq<Check>, accountIDs: seq<string>, first: string, i: nat,
                              checks: map<string, CheckOutput>, scanned: seq<string>, warning: string)
  {
    && i <= |accountIDs| && Covered(w, registry, Elems(accountIDs[..i]), checks)
    && scanned == ScannedOf(w, accountIDs[..i]) && warning == Warnings(w, first, accountIDs[..i])
  }

  lemma ScannedNext(w: World, accountIDs: seq<string>, first: string, i: nat)
    requires i < |accountIDs|
    ensures
      var a, done, next := accountIDs[i], accountIDs[..i], accountIDs[..i + 1];
      && Elems(next) == Elems(done) + {a}
      && ScannedOf(w, next) == (if Scanned(w, a) then ScannedOf(w, done) + [a] else ScannedOf(w, done))
      && Warnings(w, first, next)
         == (if Refused(w, a) then AppendWarning(Warnings(w, first, done), RefusalMessage(w, a)) else Warnings(w, first, done))
  {
    var done, next := accountIDs[..i], accountIDs[..i + 1];
    assert next[..i] == done && next == done + [accountIDs[i]];
    SnocElems(done, accountIDs[i]);
  }

  /** One account of the loop. */
  method ScanAccount(w: World, registry: seq<Check>, accountIDs: seq<string>, ghost first: string, i: nat,
                     checks: map<string, CheckOutput>, scanned: seq<string>, warning: string)
    returns (checks': map<string, CheckOutput>, scanned': seq<string>, warning': string)
    requires i < |accountIDs| && ScannedUpTo(w, registry, accountIDs, first, i, checks, scanned, warning)
    ensures ScannedUpTo(w, registry, accountIDs, first, i + 1, checks', scanned', warning')
  {
    var a := accountIDs[i];
    ScannedNext(w, accountIDs, first, i);
    checks' := Record(w, registry, Elems(accountIDs[..i]), a, checks);
    scanned', warning' := scanned, warning;
    if Refused(w, a) {
      warning' := AppendWarning(warning, RefusalMessage(w, a));
    } else if a != "unknown" {
      scanned' := scanned + [a];
    }
  }

  /** The account loop. */
  method ScanAccounts(w: World, registry: seq<Check>, accountIDs: seq<string>, warning: string, empty: map<string, CheckOutput>)
    returns (checks: map<string, CheckOutput>, scanned: seq<string>, organizationWarning: string)
    requires Covered(w, registry, {}, empty)
    ensures Covered(w, registry, Elems(accountIDs), checks)
    ensures scanned == ScannedOf(w, accountIDs) && organizationWarning == Warnings(w, warning, accountIDs)
  {
    checks, scanned, organizationWarning := empty, [], warning;
    for i := 0 to |accountIDs|
      invariant ScannedUpTo(w, registry, accountIDs, warning, i, checks, scanned, organizationWarning)
    {
      checks, scanned, organizationWarning :=
        ScanAccount(w, registry, accountIDs, warning, i, checks, scanned, organizationWarning);
    }
    assert accountIDs[..|accountIDs|] == accountIDs;
  }

  method FindTargets(w: World) returns (accountIDs: seq<string>, warning: string, scope: Option<Organization.OrganizationScope>)
    requires Organization.FiniteListing(w.pages)
    ensures accountIDs == Targets(w) && warning == FirstWarning(w) && scope == ScopeFound(w)
  {
    var management := if w.identity.Identity? then w.identity.account.GetOr("") else "";
    accountIDs, scope := ["unknown"], None;
    warning := "could not enumerate AWS Organizations without a verified management account ID";
    if management != "" {
      scope := Organization.EnumerateOrganization(w.description, w.pages, management);
      if scope.None? {
        warning := "could not enumerate AWS Organizations: " + w.enumerationError;
        accountIDs := [management];
      } else {
        warning := "";
        accountIDs := scope.value.accounts;
      }
    }
  }

  method Run(w: World, registry: seq<Check>) returns (c: AttestedContent)
    requires Organization.FiniteListing(w.pages)
    ensures IsScan(w, registry, c) && Aggregates(w, c.checks.value)
  {
    var accountIDs, warning, scope := FindTargets(w);
    var empty := Allocate(w, registry);
    var checks, scanned, organizationWarning := ScanAccounts(w, registry, accountIDs, warning, empty);
    GoLessWeakOrder();
    var sorted := Sort(GoLess, scanned);
    var summarised := Summarise(w, registry, checks);
    SummedCovers(w, registry, Elems(accountIDs), checks, summarised);
    c := ContentOf(w, scope, organizationWarning, if sorted == [] then None else Some(sorted), Some(summarised));
  }

  // ---- what the validator makes of it ----

  lemma {:induction false} ScannedMember(w: World, accounts: seq<string>, a: string)
    ensures a in ScannedOf(w, accounts) <==> a in accounts && Scanned(w, a)
  {
    if accounts != [] {
      var n := |accounts| - 1;
      assert accounts == accounts[..n] + [accounts[n]];
      ScannedMember(w, accounts[..n], a);
    }
  }

  lemma {:induction false} WarningsStay(w: World, first: string, accounts: seq<string>)
    ensures first != "" ==> Warnings(w, first, accounts) != ""
  {
    if accounts != [] { WarningsStay(w, first, accounts[..|accounts| - 1]); }
  }

  lemma {:induction false} RefusalWarns(w: World, first: string, accounts: seq<string>, a: string)
    requires a in accounts && Refused(w, a)
    ensures Warnings(w, first, accounts) != ""
  {
    var n := |accounts| - 1;
    assert accounts == accounts[..n] + [accounts[n]];
    if !Refused(w, accounts[n]) { RefusalWarns(w, first, accounts[..n], a); }
  }

  /** Exactly the accounts that could be entered are reported as scanned; all of them are listed when
      enumeration succeeded, and a listed account left out never goes without a warning. */
  lemma ScannedWithinListed(w: World, registry: seq<Check>, c: AttestedContent, a: string)
    requires Organization.FiniteListing(w.pages) && IsScan(w, registry, c)
    ensures a in Items(c.accountsScanned) <==> a in Targets(w) && Scanned(w, a)
    ensures c.organizationVerified && a in Items(c.accountsScanned) ==> a in Items(c.accountsListed)
    ensures a in Items(c.accountsListed) && a !in Items(c.accountsScanned) && a != "unknown" ==> c.organizationWarning != ""
  {
    ScannedMember(w, Targets(w), a);
    assert a in multiset(Items(c.accountsScanned)) <==> a in multiset(ScannedOf(w, Targets(w)));
    if a in Items(c.accountsListed) && !Scanned(w, a) && a != "unknown" {
      RefusalWarns(w, FirstWarning(w), Targets(w), a);
    }
  }

  lemma CoversListed(w: World, registry: seq<Check>, c: AttestedContent)
    requires Organization.FiniteListing(w.pages) && IsScan(w, registry, c) && c.organizationVerified
    ensures forall k | k in c.checks.value :: Covers(c.checks.value[k], Items(c.accountsListed))
  {
    forall k, a | k in c.checks.value && a in Items(c.accountsListed) ensures a in AccountMap(c.checks.value[k]) {
      assert a in Elems(Targets(w));
    }
  }

  lemma VerifiedPartAccepted(w: World, registry: seq<Check>, c: AttestedContent)
    requires Organization.FiniteListing(w.pages) && IsScan(w, registry, c) && c.organizationVerified
    ensures OrganizationAccepted(c)
  {
    Organization.EnumerationGuarantees(w.description, w.pages, ManagementAccount(w));
    CoversListed(w, registry, c);
    forall a | a in Items(c.accountsScanned) ensures a in Items(c.accountsListed) {
      ScannedWithinListed(w, registry, c, a);
    }
  }

  lemma UnverifiedPartWarns(w: World, registry: seq<Check>, c: AttestedContent)
    requires Organization.FiniteListing(w.pages) && IsScan(w, registry, c) && !c.organizationVerified
    ensures c.organizationWarning != ""
  {
    WarningsStay(w, FirstWarning(w), Targets(w));
  }

  /** Some account was entered and scanned. */
  ghost predicate AnyScanned(w: World)
    requires Organization.FiniteListing(w.pages)
  {
    exists a :: a in Targets(w) && Scanned(w, a)
  }

  lemma ScannedSome(w: World, accounts: seq<string>)
    ensures ScannedOf(w, accounts) != [] <==> exists a :: a in accounts && Scanned(w, a)
  {
    var scanned := ScannedOf(w, accounts);
    forall a ensures a in scanned <==> a in accounts && Scanned(w, a) { ScannedMember(w, accounts, a); }
    assert scanned != [] ==> scanned[0] in scanned;
  }

  lemma PermutationEmpty(a: seq<string>, b: seq<string>)
    requires multiset(a) == multiset(b)
    ensures a == [] <==> b == []
  {
    assert |multiset(a)| == |a| && |multiset(b)| == |b|;
  }

  lemma SomeScanned(w: World, registry: seq<Check>, c: AttestedContent)
    requires Organization.FiniteListing(w.pages) && IsScan(w, registry, c)
    ensures Items(c.accountsScanned) != [] <==> AnyScanned(w)
  {
    PermutationEmpty(ScannedOf(w, Targets(w)), Items(c.accountsScanned));
    ScannedSome(w, Targets(w));
  }

  /** ACCEPTED: the ingest handler lets the report through exactly when some account was scanned. */
  lemma ReportAccepted(w: World, registry: seq<Check>, c: AttestedContent)
    requires Organization.FiniteListing(w.pages) && IsScan(w, registry, c)
    ensures ScopeAccepted(c) <==> AnyScanned(w)
  {
    SomeScanned(w, registry, c);
    if c.organizationVerified { VerifiedPartAccepted(w, registry, c); } else { UnverifiedPartWarns(w, registry, c); }
  }

  /** So a verified identity is enough: the management account is always entered. */
  lemma VerifiedIdentityAccepted(w: World, registry: seq<Check>, c: AttestedContent)
    requires Organization.FiniteListing(w.pages) && IsScan(w, registry, c)
    requires ManagementAccount(w) != "" && ManagementAccount(w) != "unknown"
    ensures ScopeAccepted(c)
  {
    ReportAccepted(w, registry, c);
    var a := ManagementAccount(w);
    if Scope(w).Some? { Organization.EnumerationGuarantees(w.description, w.pages, a); }
    assert a in Targets(w) && Scanned(w, a);
  }

  /** And without one nothing is accepted. */
  lemma UnverifiedIdentityRefused(w: World, registry: seq<Check>, c: AttestedContent)
    requires Organization.FiniteListing(w.pages) && IsScan(w, registry, c)
    requires ManagementAccount(w) == ""
    ensures !ScopeAccepted(c)
  {
    ReportAccepted(w, registry, c);
  }

  // ---- what the report says, account by account ----

  /** The account could not be entered; the management account needs no role. */
  predicate NotEntered(w: World, c: AttestedContent, a: string) { c.accountID != "" && a != c.accountID && a in w.refused }

  /** The result is the one the check gave, or tells why there is none. */
  predicate Tells(w: World, c: AttestedContent, checkID: string, a: string, r: CheckResult) {
    if NotEntered(w, c, a) then
      r.status == "error" && r.findings == Some(["account scan failed; see organization_warning"]) && r.evidence == None
    else if (checkID, a) in w.results && w.results[(checkID, a)].RunDone? then r == w.results[(checkID, a)].result
    else
      && r.status == "error" && r.evidence == None
      && ((checkID, a) in w.results ==> r.findings == Some([w.results[(checkID, a)].error]))
  }

  /** The accounts the checks of the report are about. */
  predicate InReport(c: AttestedContent, a: string) {
    if c.organizationVerified then a in Items(c.accountsListed) else a == if c.accountID == "" then "unknown" else c.accountID
  }

  predicate Registered(registry: seq<Check>, k: string) { exists check | check in registry :: check.id == k }

  /** The check has a result for the account exactly when the report is about it, and the result tells what happened. */
  predicate Reports(w: World, c: AttestedContent, k: string, a: string) {
    && k in CheckMap(c.checks)
    && var accounts := AccountMap(CheckMap(c.checks)[k]);
       (a in accounts <==> InReport(c, a)) && (a in accounts ==> Tells(w, c, k, a, accounts[a]))
  }

  lemma AccountTells(w: World, c: AttestedContent, checkID: string, a: string)
    requires c.accountID == ManagementAccount(w)
    ensures Tells(w, c, checkID, a, AccountResult(w, checkID, a))
  {
  }

  lemma ScanScope(w: World, registry: seq<Check>, c: AttestedContent, a: string)
    requires Organization.FiniteListing(w.pages) && IsScan(w, registry, c)
    ensures c.accountID == ManagementAccount(w) && (InReport(c, a) <==> a in Targets(w))
  {
  }

  /** EVERY RESULT: each check of the registry has one result for each account of the report and no others, and each
      result tells what happened there. */
  lemma ReportedResults(w: World, registry: seq<Check>, c: AttestedContent, k: string, a: string)
    requires Organization.FiniteListing(w.pages) && IsScan(w, registry, c)
    ensures k in CheckMap(c.checks) <==> Registered(registry, k)
    ensures Registered(registry, k) ==>
      Reports(w, c, k, a) && Check(k, CheckMap(c.checks)[k].title, CheckMap(c.checks)[k].tier) in registry
  {
    ScanScope(w, registry, c, a);
    AccountTells(w, c, k, a);
    assert CheckMap(c.checks).Keys == IDs(registry);
    if k in CheckMap(c.checks) { assert CoversExactly(w, k, Elems(Targets(w)), c.checks.value[k]); }
  }

  /** The text has the part somewhere. */
  ghost predicate Says(text: string, part: string) { exists x, y :: text == x + part + y }

  lemma SaysMore(text: string, part: string, tail: string)
    requires Says(text, part)
    ensures Says(text + tail, part)
  {
    var x, y :| text == x + part + y;
    assert text + tail == x + part + (y + tail);
  }

  lemma SaysLast(text: string, part: string)
    ensures Says(AppendWarning(text, part), part)
  {
    var lead := if text == "" then "" else text + "; ";
    assert AppendWarning(text, part) == lead + part + "";
  }

  lemma {:induction false} RefusalSaid(w: World, first: string, accounts: seq<string>, a: string)
    requires a in accounts && Refused(w, a)
    ensures Says(Warnings(w, first, accounts), RefusalMessage(w, a))
  {
    var n := |accounts| - 1;
    var rest := Warnings(w, first, accounts[..n]);
    if accounts[n] == a {
      SaysLast(rest, RefusalMessage(w, a));
    } else {
      assert accounts == accounts[..n] + [accounts[n]];
      RefusalSaid(w, first, accounts[..n], a);
      if Refused(w, accounts[n]) {
        SaysMore(rest, RefusalMessage(w, a), "; " + RefusalMessage(w, accounts[n]));
        AppendedText(rest, RefusalMessage(w, accounts[n]), RefusalMessage(w, a));
      }
    }
  }

  lemma AppendedText(rest: string, next: string, part: string)
    requires Says(rest + ("; " + next), part) && part != "" && Says(rest, part)
    ensures Says(AppendWarning(rest, next), part)
  {
    assert rest != "";
    assert rest + ("; " + next) == AppendWarning(rest, next);
  }

  /** WARNED: the warning names every account that could not be entered, and why. */
  lemma WarningNames(w: World, registry: seq<Check>, c: AttestedContent, a: string)
    requires Organization.FiniteListing(w.pages) && IsScan(w, registry, c)
    requires InReport(c, a) && NotEntered(w, c, a)
    ensures Says(c.organizationWarning, "account " + a + " was listed but not scanned: " + w.refused[a])
  {
    ScanScope(w, registry, c, a);
    RefusalSaid(w, FirstWarning(w), Targets(w), a);
  }
}
