/** internal/report and internal/checks: the shape of a scan report. A Go slice or map is an Option,
    None being nil; a field tagged omitempty is printed only when it is neither nil nor empty. */
module Report {
  import opened Wrappers

  type Strings = Option<seq<string>>

  const STATUS_PASS := "pass"
  const STATUS_FAIL := "fail"
  const STATUS_ERROR := "error"
  const STATUS_NOT_IN_USE := "not_in_use"

  datatype CheckResult = CheckResult(
    status: string,
    findings: Strings,
    count: int,
    region: string,
    evidence: Strings)

  datatype CheckOutput = CheckOutput(
    title: string,
    tier: string,
    result: CheckResult,
    accounts: Option<map<string, CheckResult>>)

  type Checks = Option<map<string, CheckOutput>>

  /** The fields of AttestedContent in declaration order. The type arguments let the database row,
      the API's view and the browser's response share them: F an omitempty flag, V the scanner
      version, P an omitempty string, L an omitempty list, R a region list, C the checks. */
  datatype Fields<F, V, P, L, R, C> = Fields(
    scannerVersion: V,
    organizationVerified: F,
    orgID: P,
    noOrganization: F,
    organizationWarning: P,
    accountsListed: L,
    accountsScanned: L,
    supabaseOrganizationID: P,
    projectsListed: L,
    projectsScanned: L,
    gcpOrganizationID: P,
    gcpProjectsListed: L,
    gcpProjectsScanned: L,
    azureManagementGroups: L,
    azureSubscriptionsListed: L,
    azureSubscriptionsScanned: L,
    accountID: string,
    scopeVerified: bool,
    scopeWarning: P,
    timeVerified: bool,
    timeWarning: P,
    requestedRegions: R,
    scannedRegions: R,
    regionsWarning: P,
    checks: C)

  type AttestedContent = Fields<bool, string, string, Strings, Strings, Checks>

  datatype Attestation = Attestation(format: string, doc: string)

  datatype Submission = Submission(
    scanID: string,
    timestamp: int,
    content: AttestedContent,
    resultsHash: string,
    attestation: Option<Attestation>)

  function Items(l: Strings): seq<string> { l.GetOr([]) }

  function CheckMap(c: Checks): map<string, CheckOutput> { c.GetOr(map[]) }

  function AccountMap(c: CheckOutput): map<string, CheckResult> { c.accounts.GetOr(map[]) }
}
