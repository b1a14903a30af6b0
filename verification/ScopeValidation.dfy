/** validateOrganizationScope in internal/api/handlers.go: which reports may enter the ledger. */
module ScopeValidation {
  import opened Wrappers
  import opened Report

  ghost predicate Covers(c: CheckOutput, ids: seq<string>) {
    forall id | id in ids :: id in AccountMap(c)
  }

  /** One non-AWS provider's part: all or nothing, scanned within listed, and a result of each of
      its checks for every listed unit. */
  ghost predicate ProviderScopeAccepted(checks: map<string, CheckOutput>, prefix: string,
                                        identified: bool, listed: seq<string>, scanned: seq<string>) {
    (identified || listed != [] || scanned != []) ==>
      && identified && listed != []
      && (forall id | id in scanned :: id in listed)
      && (forall k | k in checks && prefix <= k :: Covers(checks[k], listed))
  }

  ghost predicate OrganizationAccepted(c: AttestedContent) {
    var listed := Items(c.accountsListed);
    && listed != []
    && (if c.noOrganization then c.orgID == "" && |listed| == 1 else c.orgID != "")
    && (forall id | id in Items(c.accountsScanned) :: id in listed)
    && (forall k | k in CheckMap(c.checks) :: Covers(CheckMap(c.checks)[k], listed))
    && ProviderScopeAccepted(CheckMap(c.checks), "supabase.", c.supabaseOrganizationID != "",
                             Items(c.projectsListed), Items(c.projectsScanned))
    && ProviderScopeAccepted(CheckMap(c.checks), "gcp.", c.gcpOrganizationID != "",
                             Items(c.gcpProjectsListed), Items(c.gcpProjectsScanned))
    && ProviderScopeAccepted(CheckMap(c.checks), "azure.", Items(c.azureManagementGroups) != [],
                             Items(c.azureSubscriptionsListed), Items(c.azureSubscriptionsScanned))
  }

  /** The reports the validator lets through. */
  ghost predicate ScopeAccepted(c: AttestedContent) {
    && Items(c.accountsScanned) != []
    && (if c.organizationVerified then OrganizationAccepted(c) else c.organizationWarning != "")
  }

  method FirstOutside(scanned: seq<string>, listed: seq<string>) returns (outside: Option<string>)
    ensures outside.None? <==> forall id | id in scanned :: id in listed
    ensures outside.Some? ==> outside.value in scanned && outside.value !in listed
  {
    var known: set<string> := {};
    for i := 0 to |listed|
      invariant known == set j | 0 <= j < i :: listed[j]
    {
      known := known + {listed[i]};
    }
    assert forall id :: id in known <==> id in listed;
    for i := 0 to |scanned|
      invariant forall j | 0 <= j < i :: scanned[j] in listed
    {
      if scanned[i] !in known { return Some(scanned[i]); }
    }
    outside := None;
  }

  /** Ranging over the checks in map order: the first one that misses a listed unit. */
  method FirstUncovered(checks: map<string, CheckOutput>, prefix: string, listed: seq<string>)
    returns (missing: Option<(string, string)>)
    ensures missing.None? <==> forall k | k in checks && prefix <= k :: Covers(checks[k], listed)
    ensures missing.Some? ==>
      && missing.value.0 in checks && prefix <= missing.value.0
      && missing.value.1 in listed && missing.value.1 !in AccountMap(checks[missing.value.0])
  {
    var todo := checks.Keys;
    while todo != {}
      invariant todo <= checks.Keys
      invariant forall k | k in checks && k !in todo && prefix <= k :: Covers(checks[k], listed)
    {
      var k :| k in todo;
      todo := todo - {k};
      if prefix <= k {
        for i := 0 to |listed|
          invariant forall j | 0 <= j < i :: listed[j] in AccountMap(checks[k])
        {
          if listed[i] !in AccountMap(checks[k]) { return Some((k, listed[i])); }
        }
      }
    }
    missing := None;
  }

  method ValidateProvider(checks: map<string, CheckOutput>, prefix: string, identified: bool,
                          listed: seq<string>, scanned: seq<string>) returns (err: string)
    ensures err == "" <==> ProviderScopeAccepted(checks, prefix, identified, listed, scanned)
  {
    if !identified && listed == [] && scanned == [] { return ""; }
    if !identified || listed == [] { return prefix + " scope is incomplete"; }
    var outside := FirstOutside(scanned, listed);
    if outside.Some? { return "scanned unit absent from listed: " + outside.value; }
    var missing := FirstUncovered(checks, prefix, listed);
    if missing.Some? { return "check " + missing.value.0 + " has no result for " + missing.value.1; }
    err := "";
  }

  method ValidateOrganizationScope(c: AttestedContent) returns (err: string)
    ensures err == "" <==> ScopeAccepted(c)
  {
    var listed, scanned := Items(c.accountsListed), Items(c.accountsScanned);
    if scanned == [] { return "accounts_scanned is empty"; }
    if !c.organizationVerified {
      return if c.organizationWarning == "" then "organization_warning is empty" else "";
    }
    if listed == [] { return "organization_verified is true but accounts_listed is empty"; }
    if c.noOrganization {
      if c.orgID != "" { return "no_organization is true but org_id is also present"; }
      if |listed| != 1 { return "accounts_listed is not the single-account fallback"; }
    } else if c.orgID == "" {
      return "neither org_id nor no_organization is present";
    }
    var outside := FirstOutside(scanned, listed);
    if outside.Some? { return "accounts_scanned contains account " + outside.value; }
    var missing := FirstUncovered(CheckMap(c.checks), "", listed);
    if missing.Some? { return "check " + missing.value.0 + " has no per-account result for " + missing.value.1; }
    err := ValidateProvider(CheckMap(c.checks), "supabase.", c.supabaseOrganizationID != "",
                            Items(c.projectsListed), Items(c.projectsScanned));
    if err != "" { return; }
    err := ValidateProvider(CheckMap(c.checks), "gcp.", c.gcpOrganizationID != "",
                            Items(c.gcpProjectsListed), Items(c.gcpProjectsScanned));
    if err != "" { return; }
    err := ValidateProvider(CheckMap(c.checks), "azure.", Items(c.azureManagementGroups) != [],
                            Items(c.azureSubscriptionsListed), Items(c.azureSubscriptionsScanned));
  }

  // ---- in the report's own terms ----

  /** Nothing is said of the provider, or all of it: who it is, what is listed, nothing scanned that is not listed,
      and a result for every listed unit in each check whose ID starts with the prefix. */
  predicate AllOrNothing(c: AttestedContent, prefix: string, named: bool, listed: Strings, scanned: Strings) {
    || (!named && listed.GetOr([]) == [] && scanned.GetOr([]) == [])
    || (named && listed.GetOr([]) != []
        && (forall u | u in scanned.GetOr([]) :: u in listed.GetOr([]))
        && forall k, u | k in c.checks.GetOr(map[]) && |prefix| <= |k| && k[..|prefix|] == prefix && u in listed.GetOr([]) ::
             u in c.checks.GetOr(map[])[k].accounts.GetOr(map[]))
  }

  lemma PartIff(c: AttestedContent, prefix: string, named: bool, listed: Strings, scanned: Strings)
    ensures ProviderScopeAccepted(CheckMap(c.checks), prefix, named, Items(listed), Items(scanned))
            <==> AllOrNothing(c, prefix, named, listed, scanned)
  {
    var checks := CheckMap(c.checks);
    forall k | k in checks ensures prefix <= k <==> |prefix| <= |k| && k[..|prefix|] == prefix {}
    forall k | k in checks ensures Covers(checks[k], Items(listed)) <==> forall u | u in Items(listed) :: u in checks[k].accounts.GetOr(map[]) {}
  }

  /** ACCEPTED REPORTS name some account as scanned; over a verified organization they list accounts, scanned ones
      among them, have a result for each listed account in every check, and say of each other provider all or
      nothing; over an unverified one they carry a warning. */
  lemma AcceptedMeans(c: AttestedContent)
    ensures ScopeAccepted(c) <==>
      && c.accountsScanned.GetOr([]) != []
      && (!c.organizationVerified ==> c.organizationWarning != "")
      && (c.organizationVerified ==>
            && c.accountsListed.GetOr([]) != []
            && (c.noOrganization ==> c.orgID == "" && |c.accountsListed.GetOr([])| == 1)
            && (!c.noOrganization ==> c.orgID != "")
            && (forall a | a in c.accountsScanned.GetOr([]) :: a in c.accountsListed.GetOr([]))
            && (forall k, a | k in c.checks.GetOr(map[]) && a in c.accountsListed.GetOr([]) ::
                  a in c.checks.GetOr(map[])[k].accounts.GetOr(map[]))
            && AllOrNothing(c, "supabase.", c.supabaseOrganizationID != "", c.projectsListed, c.projectsScanned)
            && AllOrNothing(c, "gcp.", c.gcpOrganizationID != "", c.gcpProjectsListed, c.gcpProjectsScanned)
            && AllOrNothing(c, "azure.", c.azureManagementGroups.GetOr([]) != [], c.azureSubscriptionsListed, c.azureSubscriptionsScanned))
  {
    PartIff(c, "supabase.", c.supabaseOrganizationID != "", c.projectsListed, c.projectsScanned);
    PartIff(c, "gcp.", c.gcpOrganizationID != "", c.gcpProjectsListed, c.gcpProjectsScanned);
    PartIff(c, "azure.", c.azureManagementGroups.GetOr([]) != [], c.azureSubscriptionsListed, c.azureSubscriptionsScanned);
    var checks, listed := CheckMap(c.checks), Items(c.accountsListed);
    forall k | k in checks ensures Covers(checks[k], listed) <==> forall a | a in listed :: a in checks[k].accounts.GetOr(map[]) {}
  }
}
