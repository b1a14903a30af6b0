/** web/src/verify/hash.ts: the browser rebuilds the sealed object from the API's response and
    prints it the way Go printed it. An absent property of the response is None. */
module HashTs {
  import opened Wrappers
  import opened Sorting
  import opened GoJson
  import opened Canonical
  import opened Report

  datatype JsResult = JsResult(
    status: string,
    findings: Option<seq<string>>,
    count: int,
    region: Option<string>,
    evidence: Option<seq<string>>)

  datatype JsCheck = JsCheck(
    title: string,
    tier: string,
    result: JsResult,
    accounts: Option<map<string, JsResult>>)

  type JsChecks = Option<map<string, JsCheck>>

  type Response = Fields<Option<bool>, Option<string>, Option<string>, Option<seq<string>>, Strings, JsChecks>

  // ---- truthiness: what `if (x) obj.x = x` keeps ----

  function Flag(b: Option<bool>): Option<Json> {
    if b == Some(true) then Some(Bool(true)) else None
  }

  function Text(s: Option<string>): Option<Json> {
    if s.Some? && s.value != "" then Some(Str(s.value)) else None
  }

  function List(l: Option<seq<string>>): Option<Json> {
    if l.Some? && l.value != [] then Some(StringsJson(l.value)) else None
  }

  // ---- the printed objects ----

  function ResultFields(r: JsResult): seq<Field> {
    [Field("status", Some(Str(r.status))), Field("findings", Some(NullableStrings(r.findings))),
     Field("count", Some(Num(r.count))), Field("region", Text(r.region)), Field("evidence", List(r.evidence))]
  }

  function ResultObject(r: JsResult): Json {
    Obj(Kept(ResultFields(r)))
  }

  function AccountMembers(ks: seq<string>, m: map<string, JsResult>): seq<Member>
    requires Elems(ks) <= m.Keys
  {
    seq(|ks|, i requires 0 <= i < |ks| => assert ks[i] in Elems(ks); Member(ks[i], ResultObject(m[ks[i]])))
  }

  ghost function Accounts(m: Option<map<string, JsResult>>): Option<Json> {
    if m.Some? && m.value != map[] then Some(Obj(AccountMembers(BrowserKeys(m.value.Keys), m.value))) else None
  }

  ghost function CheckFields(c: JsCheck): seq<Field> {
    FieldsOfCheck(c.title, c.tier, ResultObject(c.result), Accounts(c.accounts))
  }

  function FieldsOfCheck(title: string, tier: string, result: Json, accounts: Option<Json>): seq<Field> {
    [Field("title", Some(Str(title))), Field("tier", Some(Str(tier))), Field("result", Some(result)), Field("accounts", accounts)]
  }

  ghost function CheckObject(c: JsCheck): Json {
    Obj(Kept(CheckFields(c)))
  }

  ghost function CheckMembers(ks: seq<string>, m: map<string, JsCheck>): seq<Member>
    requires Elems(ks) <= m.Keys
  {
    seq(|ks|, i requires 0 <= i < |ks| => assert ks[i] in Elems(ks); Member(ks[i], CheckObject(m[ks[i]])))
  }

  ghost function ChecksObject(m: map<string, JsCheck>): Json {
    Obj(CheckMembers(BrowserKeys(m.Keys), m))
  }

  function AwsFields(r: Response): seq<Field> {
    [Field("scanner_version", Text(r.scannerVersion)),
     Field("organization_verified", Flag(r.organizationVerified)),
     Field("org_id", Text(r.orgID)),
     Field("no_organization", Flag(r.noOrganization)),
     Field("organization_warning", Text(r.organizationWarning)),
     Field("accounts_listed", List(r.accountsListed)),
     Field("accounts_scanned", List(r.accountsScanned))]
  }

  function ProviderFields(r: Response): seq<Field> {
    [Field("supabase_organization_id", Text(r.supabaseOrganizationID)),
     Field("projects_listed", List(r.projectsListed)),
     Field("projects_scanned", List(r.projectsScanned)),
     Field("gcp_organization_id", Text(r.gcpOrganizationID)),
     Field("gcp_projects_listed", List(r.gcpProjectsListed)),
     Field("gcp_projects_scanned", List(r.gcpProjectsScanned)),
     Field("azure_management_groups", List(r.azureManagementGroups)),
     Field("azure_subscriptions_listed", List(r.azureSubscriptionsListed)),
     Field("azure_subscriptions_scanned", List(r.azureSubscriptionsScanned))]
  }

  ghost function ClaimFields(r: Response): seq<Field>
    requires r.checks.Some?
  {
    [Field("account_id", Some(Str(r.accountID))),
     Field("scope_verified", Some(Bool(r.scopeVerified))),
     Field("scope_warning", Text(r.scopeWarning)),
     Field("time_verified", Some(Bool(r.timeVerified))),
     Field("time_warning", Text(r.timeWarning)),
     Field("requested_regions", Some(NullableStrings(r.requestedRegions))),
     Field("scanned_regions", Some(NullableStrings(r.scannedRegions))),
     Field("regions_warning", Text(r.regionsWarning)),
     Field("checks", Some(ChecksObject(r.checks.value)))]
  }

  ghost function ContentFields(r: Response): seq<Field>
    requires r.checks.Some?
  {
    AwsFields(r) + ProviderFields(r) + ClaimFields(r)
  }

  /** The object that is hashed; None when Object.keys(null) throws. */
  ghost function ContentObject(r: Response): Option<Json> {
    if r.checks.None? then None else Some(Obj(Kept(ContentFields(r))))
  }

  // ---- the code that builds them ----

  /** `if (value) obj.name = value`, where the object holds the first n of the fields fs. */
  method Put(obj: seq<Member>, ghost fs: seq<Field>, ghost n: nat, name: string, value: Option<Json>) returns (obj': seq<Member>)
    requires n < |fs| && fs[n] == Field(name, value) && obj == Kept(fs[..n])
    ensures obj' == Kept(fs[..n + 1])
  {
    KeptSnoc(fs[..n], fs[n]);
    assert fs[..n + 1] == fs[..n] + [fs[n]];
    obj' := if value.Some? then obj + [Member(name, value.value)] else obj;
  }

  method BuildResultForHashing(result: JsResult) returns (obj: Json)
    ensures obj == ResultObject(result)
  {
    var ms: seq<Member> := [];
    ghost var fs := ResultFields(result);
    ms := Put(ms, fs, 0, "status", Some(Str(result.status)));
    ms := Put(ms, fs, 1, "findings", Some(NullableStrings(result.findings)));
    ms := Put(ms, fs, 2, "count", Some(Num(result.count)));
    ms := Put(ms, fs, 3, "region", Text(result.region));
    ms := Put(ms, fs, 4, "evidence", List(result.evidence));
    assert fs[..5] == fs;
    obj := Obj(ms);
  }

  /** Leaves a key out. */
  method Without(ks: seq<string>, k: string) returns (r: seq<string>)
    requires NoDuplicates(ks)
    ensures NoDuplicates(r) && Elems(r) == Elems(ks) - {k}
  {
    r := [];
    for i := 0 to |ks|
      invariant NoDuplicates(r) && Elems(r) == Elems(ks[..i]) - {k}
    {
      assert ks[..i + 1] == ks[..i] + [ks[i]];
      SnocElems(ks[..i], ks[i]);
      if ks[i] != k {
        assert ks[i] !in Elems(r);
        SnocElems(r, ks[i]);
        r := r + [ks[i]];
      }
    }
    assert ks[..|ks|] == ks;
  }

  /** Object.keys(m).sort(), then one assignment a key to a fresh object, then Object.entries. */
  method EntryKeys<V>(m: map<string, V>) returns (ks: seq<string>)
    ensures ks == BrowserKeys(m.Keys)
  {
    var added := Keys(m);
    var all := m.Keys;
    added := Without(added, "__proto__");
    assert Elems(added) == all - {"__proto__"};
    added := SortKeysJs(added);
    JsLessTotal(Elems(added));
    AscendingNoDuplicates(JsLess, added);
    ks := OwnKeys(added);
  }

  lemma TakeNext<T>(s: seq<T>, i: nat)
    requires i < |s|
    ensures s[..i + 1] == s[..i] + [s[i]]
  {
  }

  method BuildAccount(ks: seq<string>, m: map<string, JsResult>, i: nat) returns (member: Member)
    requires Elems(ks) <= m.Keys && i < |ks|
    ensures member == AccountMembers(ks, m)[i]
  {
    assert ks[i] in Elems(ks);
    var r := BuildResultForHashing(m[ks[i]]);
    member := Member(ks[i], r);
  }

  method BuildAccounts(m: map<string, JsResult>) returns (obj: Json)
    ensures obj == Obj(AccountMembers(BrowserKeys(m.Keys), m))
  {
    var ks := EntryKeys(m);
    var ms := [];
    ghost var all := AccountMembers(ks, m);
    for i := 0 to |ks|
      invariant ms == all[..i]
    {
      var member := BuildAccount(ks, m, i);
      ms := ms + [member];
      TakeNext(all, i);
    }
    obj := Obj(ms);
  }

  method BuildCheckMembers(title: string, tier: string, result: Json, accounts: Option<Json>) returns (ms: seq<Member>)
    ensures ms == Kept(FieldsOfCheck(title, tier, result, accounts))
  {
    ghost var fs := FieldsOfCheck(title, tier, result, accounts);
    ms := Put([], fs, 0, "title", Some(Str(title)));
    ms := Put(ms, fs, 1, "tier", Some(Str(tier)));
    ms := Put(ms, fs, 2, "result", Some(result));
    ms := Put(ms, fs, 3, "accounts", accounts);
    assert fs[..4] == fs;
  }

  method BuildCheck(c: JsCheck) returns (obj: Json)
    ensures obj == CheckObject(c)
  {
    var result := BuildResultForHashing(c.result);
    var accounts := None;
    if c.accounts.Some? && c.accounts.value != map[] {
      var o := BuildAccounts(c.accounts.value);
      accounts := Some(o);
    }
    var ms := BuildCheckMembers(c.title, c.tier, result, accounts);
    obj := Obj(ms);
  }

  method BuildMember(ks: seq<string>, m: map<string, JsCheck>, i: nat) returns (member: Member)
    requires Elems(ks) <= m.Keys && i < |ks|
    ensures member == CheckMembers(ks, m)[i]
  {
    assert ks[i] in Elems(ks);
    var c := BuildCheck(m[ks[i]]);
    member := Member(ks[i], c);
  }

  method BuildChecks(m: map<string, JsCheck>) returns (obj: Json)
    ensures obj == ChecksObject(m)
  {
    var ks := EntryKeys(m);
    var ms := [];
    ghost var all := CheckMembers(ks, m);
    for i := 0 to |ks|
      invariant ms == all[..i]
    {
      var member := BuildMember(ks, m, i);
      ms := ms + [member];
      TakeNext(all, i);
    }
    obj := Obj(ms);
  }

  // The source writes the fields in one function; it is cut in parts here, and the members of the
  // parts are joined.

  ghost function ScannerFields(r: Response): seq<Field> {
    [Field("scanner_version", Text(r.scannerVersion)),
     Field("organization_verified", Flag(r.organizationVerified)),
     Field("org_id", Text(r.orgID)),
     Field("no_organization", Flag(r.noOrganization))]
  }

  method BuildScanner(resp: Response) returns (ms: seq<Member>)
    ensures ms == Kept(ScannerFields(resp))
  {
    ghost var fs := ScannerFields(resp);
    ms := Put([], fs, 0, "scanner_version", Text(resp.scannerVersion));
    ms := Put(ms, fs, 1, "organization_verified", Flag(resp.organizationVerified));
    ms := Put(ms, fs, 2, "org_id", Text(resp.orgID));
    ms := Put(ms, fs, 3, "no_organization", Flag(resp.noOrganization));
    assert fs[..4] == fs;
  }

  ghost function AccountsFields(r: Response): seq<Field> {
    [Field("organization_warning", Text(r.organizationWarning)),
     Field("accounts_listed", List(r.accountsListed)),
     Field("accounts_scanned", List(r.accountsScanned))]
  }

  method BuildAccountScope(resp: Response) returns (ms: seq<Member>)
    ensures ms == Kept(AccountsFields(resp))
  {
    ghost var fs := AccountsFields(resp);
    ms := Put([], fs, 0, "organization_warning", Text(resp.organizationWarning));
    ms := Put(ms, fs, 1, "accounts_listed", List(resp.accountsListed));
    ms := Put(ms, fs, 2, "accounts_scanned", List(resp.accountsScanned));
    assert fs[..3] == fs;
  }

  ghost function SupabaseFields(r: Response): seq<Field> {
    [Field("supabase_organization_id", Text(r.supabaseOrganizationID)),
     Field("projects_listed", List(r.projectsListed)),
     Field("projects_scanned", List(r.projectsScanned))]
  }

  method BuildSupabase(resp: Response) returns (ms: seq<Member>)
    ensures ms == Kept(SupabaseFields(resp))
  {
    ghost var fs := SupabaseFields(resp);
    ms := Put([], fs, 0, "supabase_organization_id", Text(resp.supabaseOrganizationID));
    ms := Put(ms, fs, 1, "projects_listed", List(resp.projectsListed));
    ms := Put(ms, fs, 2, "projects_scanned", List(resp.projectsScanned));
    assert fs[..3] == fs;
  }

  ghost function GcpFields(r: Response): seq<Field> {
    [Field("gcp_organization_id", Text(r.gcpOrganizationID)),
     Field("gcp_projects_listed", List(r.gcpProjectsListed)),
     Field("gcp_projects_scanned", List(r.gcpProjectsScanned))]
  }

  method BuildGcp(resp: Response) returns (ms: seq<Member>)
    ensures ms == Kept(GcpFields(resp))
  {
    ghost var fs := GcpFields(resp);
    ms := Put([], fs, 0, "gcp_organization_id", Text(resp.gcpOrganizationID));
    ms := Put(ms, fs, 1, "gcp_projects_listed", List(resp.gcpProjectsListed));
    ms := Put(ms, fs, 2, "gcp_projects_scanned", List(resp.gcpProjectsScanned));
    assert fs[..3] == fs;
  }

  ghost function AzureFields(r: Response): seq<Field> {
    [Field("azure_management_groups", List(r.azureManagementGroups)),
     Field("azure_subscriptions_listed", List(r.azureSubscriptionsListed)),
     Field("azure_subscriptions_scanned", List(r.azureSubscriptionsScanned))]
  }

  method BuildAzure(resp: Response) returns (ms: seq<Member>)
    ensures ms == Kept(AzureFields(resp))
  {
    ghost var fs := AzureFields(resp);
    ms := Put([], fs, 0, "azure_management_groups", List(resp.azureManagementGroups));
    ms := Put(ms, fs, 1, "azure_subscriptions_listed", List(resp.azureSubscriptionsListed));
    ms := Put(ms, fs, 2, "azure_subscriptions_scanned", List(resp.azureSubscriptionsScanned));
    assert fs[..3] == fs;
  }

  ghost function ScopeFields(r: Response): seq<Field> {
    [Field("account_id", Some(Str(r.accountID))),
     Field("scope_verified", Some(Bool(r.scopeVerified))),
     Field("scope_warning", Text(r.scopeWarning)),
     Field("time_verified", Some(Bool(r.timeVerified))),
     Field("time_warning", Text(r.timeWarning))]
  }

  method BuildScope(resp: Response) returns (ms: seq<Member>)
    ensures ms == Kept(ScopeFields(resp))
  {
    ghost var fs := ScopeFields(resp);
    ms := Put([], fs, 0, "account_id", Some(Str(resp.accountID)));
    ms := Put(ms, fs, 1, "scope_verified", Some(Bool(resp.scopeVerified)));
    ms := Put(ms, fs, 2, "scope_warning", Text(resp.scopeWarning));
    ms := Put(ms, fs, 3, "time_verified", Some(Bool(resp.timeVerified)));
    ms := Put(ms, fs, 4, "time_warning", Text(resp.timeWarning));
    assert fs[..5] == fs;
  }

  ghost function RegionFields(r: Response, checks: Json): seq<Field> {
    [Field("requested_regions", Some(NullableStrings(r.requestedRegions))),
     Field("scanned_regions", Some(NullableStrings(r.scannedRegions))),
     Field("regions_warning", Text(r.regionsWarning)),
     Field("checks", Some(checks))]
  }

  method BuildRegions(resp: Response, checks: Json) returns (ms: seq<Member>)
    ensures ms == Kept(RegionFields(resp, checks))
  {
    ghost var fs := RegionFields(resp, checks);
    ms := Put([], fs, 0, "requested_regions", Some(NullableStrings(resp.requestedRegions)));
    ms := Put(ms, fs, 1, "scanned_regions", Some(NullableStrings(resp.scannedRegions)));
    ms := Put(ms, fs, 2, "regions_warning", Text(resp.regionsWarning));
    ms := Put(ms, fs, 3, "checks", Some(checks));
    assert fs[..4] == fs;
  }

  lemma {:induction false} KeptConcat(fs: seq<Field>, gs: seq<Field>)
    ensures Kept(fs + gs) == Kept(fs) + Kept(gs)
  {
    if gs == [] {
      assert fs + gs == fs;
    } else {
      var n := |gs| - 1;
      KeptConcat(fs, gs[..n]);
      assert fs + gs == (fs + gs[..n]) + [gs[n]] && gs == gs[..n] + [gs[n]];
      KeptSnoc(fs + gs[..n], gs[n]);
      KeptSnoc(gs[..n], gs[n]);
    }
  }

  lemma AwsParts(r: Response)
    ensures AwsFields(r) == ScannerFields(r) + AccountsFields(r)
  {
  }

  lemma ProviderParts(r: Response)
    ensures ProviderFields(r) == SupabaseFields(r) + GcpFields(r) + AzureFields(r)
  {
  }

  lemma ClaimParts(r: Response)
    requires r.checks.Some?
    ensures ClaimFields(r) == ScopeFields(r) + RegionFields(r, ChecksObject(r.checks.value))
  {
  }

  method BuildAwsFields(resp: Response) returns (ms: seq<Member>)
    ensures ms == Kept(AwsFields(resp))
  {
    var head := BuildScanner(resp);
    var tail := BuildAccountScope(resp);
    KeptConcat(ScannerFields(resp), AccountsFields(resp));
    AwsParts(resp);
    ms := head + tail;
  }

  method BuildProviderFields(resp: Response) returns (ms: seq<Member>)
    ensures ms == Kept(ProviderFields(resp))
  {
    var supabase := BuildSupabase(resp);
    var gcp := BuildGcp(resp);
    var azure := BuildAzure(resp);
    KeptConcat(SupabaseFields(resp), GcpFields(resp));
    KeptConcat(SupabaseFields(resp) + GcpFields(resp), AzureFields(resp));
    ProviderParts(resp);
    ms := supabase + gcp + azure;
  }

  method BuildClaimFields(resp: Response, checks: Json) returns (ms: seq<Member>)
    requires resp.checks.Some? && checks == ChecksObject(resp.checks.value)
    ensures ms == Kept(ClaimFields(resp))
  {
    var head := BuildScope(resp);
    var tail := BuildRegions(resp, checks);
    KeptConcat(ScopeFields(resp), RegionFields(resp, checks));
    ClaimParts(resp);
    ms := head + tail;
  }

  method BuildAttestedContentForHashing(resp: Response) returns (obj: Option<Json>)
    ensures obj == ContentObject(resp)
  {
    if resp.checks.None? { return None; }
    var aws := BuildAwsFields(resp);
    var providers := BuildProviderFields(resp);
    var checks := BuildChecks(resp.checks.value);
    var claims := BuildClaimFields(resp, checks);
    KeptConcat(AwsFields(resp), ProviderFields(resp));
    KeptConcat(AwsFields(resp) + ProviderFields(resp), ClaimFields(resp));
    obj := Some(Obj(aws + providers + claims));
  }

  // ---- what the text leaves out: empty against absent, and nothing else ----

  function NormalFlag(b: Option<bool>): Option<bool> { if b == Some(true) then b else None }

  function NormalText(s: Option<string>): Option<string> { if s == Some("") then None else s }

  function NormalList(l: Option<seq<string>>): Option<seq<string>> { if l == Some([]) then None else l }

  function NormalResult(r: JsResult): JsResult {
    r.(region := NormalText(r.region), evidence := NormalList(r.evidence))
  }

  function NormalAccounts(m: Option<map<string, JsResult>>): Option<map<string, JsResult>> {
    if m.None? || m.value == map[] then None
    else Some(NormalResults(m.value))
  }

  function NormalResults(m: map<string, JsResult>): map<string, JsResult> {
    map k | k in m && k != "__proto__" :: NormalResult(m[k])
  }

  function NormalCheck(c: JsCheck): JsCheck {
    c.(result := NormalResult(c.result), accounts := NormalAccounts(c.accounts))
  }

  function NormalChecks(m: map<string, JsCheck>): map<string, JsCheck> {
    map k | k in m && k != "__proto__" :: NormalCheck(m[k])
  }

  /** Empty omitempty fields become absent; a "__proto__" key, which no report has, is dropped. */
  function Normal(r: Response): Response {
    Fields(NormalText(r.scannerVersion), NormalFlag(r.organizationVerified), NormalText(r.orgID),
           NormalFlag(r.noOrganization), NormalText(r.organizationWarning),
           NormalList(r.accountsListed), NormalList(r.accountsScanned),
           NormalText(r.supabaseOrganizationID), NormalList(r.projectsListed), NormalList(r.projectsScanned),
           NormalText(r.gcpOrganizationID), NormalList(r.gcpProjectsListed), NormalList(r.gcpProjectsScanned),
           NormalList(r.azureManagementGroups), NormalList(r.azureSubscriptionsListed),
           NormalList(r.azureSubscriptionsScanned), r.accountID, r.scopeVerified, NormalText(r.scopeWarning),
           r.timeVerified, NormalText(r.timeWarning), r.requestedRegions, r.scannedRegions,
           NormalText(r.regionsWarning), if r.checks.None? then None else Some(NormalChecks(r.checks.value)))
  }

  lemma TextInjective(s: Option<string>, t: Option<string>)
    ensures Text(s) == Text(t) <==> NormalText(s) == NormalText(t)
  {
  }

  lemma ListInjective(l: Option<seq<string>>, m: Option<seq<string>>)
    ensures List(l) == List(m) <==> NormalList(l) == NormalList(m)
  {
    if List(l).Some? && List(l) == List(m) { StringsJsonInjective(l.value, m.value); }
  }

  lemma ResultInjective(r: JsResult, s: JsResult)
    ensures ResultObject(r) == ResultObject(s) <==> NormalResult(r) == NormalResult(s)
  {
    TextInjective(r.region, s.region);
    ListInjective(r.evidence, s.evidence);
    NullableStringsEqual(r.findings, s.findings);
    ResultFieldsEqual(r, s);
    ResultNames(r);
    ResultNames(s);
    ObjectsEqual(ResultFields(r), ResultFields(s), RESULT_NAMES);
  }

  const RESULT_NAMES: seq<string> := ["status", "findings", "count", "region", "evidence"]
  const CHECK_NAMES: seq<string> := ["title", "tier", "result", "accounts"]

  lemma ResultNames(r: JsResult)
    ensures Names(ResultFields(r)) == RESULT_NAMES && NoDuplicates(RESULT_NAMES)
  {
  }

  lemma NamesOfCheck(title: string, tier: string, result: Json, accounts: Option<Json>)
    ensures Names(FieldsOfCheck(title, tier, result, accounts)) == CHECK_NAMES
  {
  }

  lemma CheckNamesDistinct()
    ensures NoDuplicates(CHECK_NAMES)
  {
  }

  lemma CheckNames(c: JsCheck)
    ensures Names(CheckFields(c)) == CHECK_NAMES && NoDuplicates(CHECK_NAMES)
  {
    CheckNamesDistinct();
    NamesOfCheck(c.title, c.tier, ResultObject(c.result), Accounts(c.accounts));
  }

  lemma ResultFieldsEqual(r: JsResult, s: JsResult)
    ensures ResultFields(r) == ResultFields(s) <==>
      && r.status == s.status && NullableStrings(r.findings) == NullableStrings(s.findings) && r.count == s.count
      && Text(r.region) == Text(s.region) && List(r.evidence) == List(s.evidence)
  {
    var fs, gs := ResultFields(r), ResultFields(s);
    assert fs == gs ==> fs[0] == gs[0] && fs[1] == gs[1] && fs[2] == gs[2] && fs[3] == gs[3] && fs[4] == gs[4];
  }

  lemma AccountMembersKeys(ka: seq<string>, a: map<string, JsResult>, kb: seq<string>, b: map<string, JsResult>)
    requires Elems(ka) <= a.Keys && Elems(kb) <= b.Keys && AccountMembers(ka, a) == AccountMembers(kb, b)
    ensures ka == kb
  {
    var ma, mb := AccountMembers(ka, a), AccountMembers(kb, b);
    assert |ka| == |ma| == |kb|;
    assert forall i | 0 <= i < |ka| :: ma[i].key == ka[i] && mb[i].key == kb[i];
  }

  lemma AccountMembersAt(ks: seq<string>, a: map<string, JsResult>, b: map<string, JsResult>, k: string)
    requires Elems(ks) <= a.Keys && Elems(ks) <= b.Keys && AccountMembers(ks, a) == AccountMembers(ks, b)
    requires k in Elems(ks)
    ensures NormalResult(a[k]) == NormalResult(b[k])
  {
    var ma, mb := AccountMembers(ks, a), AccountMembers(ks, b);
    var i :| 0 <= i < |ks| && ks[i] == k;
    assert ma[i].value == ResultObject(a[k]) && mb[i].value == ResultObject(b[k]);
    ResultInjective(a[k], b[k]);
  }

  lemma AccountsForwardOver(ka: seq<string>, a: map<string, JsResult>, kb: seq<string>, b: map<string, JsResult>)
    requires Elems(ka) == a.Keys - {"__proto__"} && Elems(kb) == b.Keys - {"__proto__"}
    requires AccountMembers(ka, a) == AccountMembers(kb, b)
    ensures NormalResults(a) == NormalResults(b)
  {
    AccountMembersKeys(ka, a, kb, b);
    var m, n := NormalResults(a), NormalResults(b);
    assert m.Keys == Elems(ka) && n.Keys == Elems(ka);
    forall k | k in Elems(ka) ensures m[k] == n[k] {
      AccountMembersAt(ka, a, b, k);
    }
  }

  lemma AccountsForward(a: map<string, JsResult>, b: map<string, JsResult>)
    requires AccountMembers(BrowserKeys(a.Keys), a) == AccountMembers(BrowserKeys(b.Keys), b)
    ensures NormalResults(a) == NormalResults(b)
  {
    AccountsForwardOver(BrowserKeys(a.Keys), a, BrowserKeys(b.Keys), b);
  }

  lemma AccountBackward(a: map<string, JsResult>, b: map<string, JsResult>, k: string)
    requires NormalResults(a) == NormalResults(b) && k in a && k in b && k != "__proto__"
    ensures ResultObject(a[k]) == ResultObject(b[k])
  {
    assert NormalResults(a)[k] == NormalResults(b)[k];
    ResultInjective(a[k], b[k]);
  }

  lemma AccountMemberBackward(a: map<string, JsResult>, b: map<string, JsResult>, ks: seq<string>, i: nat)
    requires NormalResults(a) == NormalResults(b) && Elems(ks) <= a.Keys && Elems(ks) <= b.Keys && "__proto__" !in Elems(ks)
    requires i < |ks|
    ensures AccountMembers(ks, a)[i] == AccountMembers(ks, b)[i]
  {
    assert ks[i] in Elems(ks);
    AccountBackward(a, b, ks[i]);
  }

  lemma AccountsBackward(a: map<string, JsResult>, b: map<string, JsResult>)
    requires NormalResults(a) == NormalResults(b)
    ensures AccountMembers(BrowserKeys(a.Keys), a) == AccountMembers(BrowserKeys(b.Keys), b)
  {
    assert NormalResults(a).Keys == a.Keys - {"__proto__"} && NormalResults(b).Keys == b.Keys - {"__proto__"};
    var ks := BrowserKeys(a.Keys);
    assert ks == BrowserKeys(b.Keys);
    forall i | 0 <= i < |ks| ensures AccountMembers(ks, a)[i] == AccountMembers(ks, b)[i] {
      AccountMemberBackward(a, b, ks, i);
    }
  }

  lemma AccountsInjective(a: Option<map<string, JsResult>>, b: Option<map<string, JsResult>>)
    ensures Accounts(a) == Accounts(b) <==> NormalAccounts(a) == NormalAccounts(b)
  {
    if Accounts(a).Some? && Accounts(b).Some? {
      if Accounts(a) == Accounts(b) { AccountsForward(a.value, b.value); }
      if NormalAccounts(a) == NormalAccounts(b) { AccountsBackward(a.value, b.value); }
    }
  }

  lemma CheckInjective(c: JsCheck, d: JsCheck)
    ensures CheckObject(c) == CheckObject(d) <==> NormalCheck(c) == NormalCheck(d)
  {
    ResultInjective(c.result, d.result);
    AccountsInjective(c.accounts, d.accounts);
    CheckFieldsEqual(c, d);
    CheckNames(c);
    CheckNames(d);
    ObjectsEqual(CheckFields(c), CheckFields(d), CHECK_NAMES);
  }

  lemma CheckFieldsEqual(c: JsCheck, d: JsCheck)
    ensures CheckFields(c) == CheckFields(d) <==>
      && c.title == d.title && c.tier == d.tier && ResultObject(c.result) == ResultObject(d.result)
      && Accounts(c.accounts) == Accounts(d.accounts)
  {
    var fs, gs := CheckFields(c), CheckFields(d);
    assert fs == gs ==> fs[0] == gs[0] && fs[1] == gs[1] && fs[2] == gs[2] && fs[3] == gs[3];
  }

  lemma CheckMembersKeys(ka: seq<string>, a: map<string, JsCheck>, kb: seq<string>, b: map<string, JsCheck>)
    requires Elems(ka) <= a.Keys && Elems(kb) <= b.Keys && CheckMembers(ka, a) == CheckMembers(kb, b)
    ensures ka == kb
  {
    var ma, mb := CheckMembers(ka, a), CheckMembers(kb, b);
    assert |ka| == |ma| == |kb|;
    assert forall i | 0 <= i < |ka| :: ma[i].key == ka[i] && mb[i].key == kb[i];
  }

  lemma CheckMembersAt(ks: seq<string>, a: map<string, JsCheck>, b: map<string, JsCheck>, k: string)
    requires Elems(ks) <= a.Keys && Elems(ks) <= b.Keys && CheckMembers(ks, a) == CheckMembers(ks, b)
    requires k in Elems(ks)
    ensures NormalCheck(a[k]) == NormalCheck(b[k])
  {
    var ma, mb := CheckMembers(ks, a), CheckMembers(ks, b);
    var i :| 0 <= i < |ks| && ks[i] == k;
    assert ma[i].value == CheckObject(a[k]) && mb[i].value == CheckObject(b[k]);
    CheckInjective(a[k], b[k]);
  }

  lemma ChecksForwardOver(ka: seq<string>, a: map<string, JsCheck>, kb: seq<string>, b: map<string, JsCheck>)
    requires Elems(ka) == a.Keys - {"__proto__"} && Elems(kb) == b.Keys - {"__proto__"}
    requires CheckMembers(ka, a) == CheckMembers(kb, b)
    ensures NormalChecks(a) == NormalChecks(b)
  {
    CheckMembersKeys(ka, a, kb, b);
    var m, n := NormalChecks(a), NormalChecks(b);
    assert m.Keys == Elems(ka) && n.Keys == Elems(ka);
    forall k | k in Elems(ka) ensures m[k] == n[k] {
      CheckMembersAt(ka, a, b, k);
    }
  }

  lemma ChecksForward(a: map<string, JsCheck>, b: map<string, JsCheck>)
    requires CheckMembers(BrowserKeys(a.Keys), a) == CheckMembers(BrowserKeys(b.Keys), b)
    ensures NormalChecks(a) == NormalChecks(b)
  {
    ChecksForwardOver(BrowserKeys(a.Keys), a, BrowserKeys(b.Keys), b);
  }

  lemma CheckBackward(a: map<string, JsCheck>, b: map<string, JsCheck>, k: string)
    requires NormalChecks(a) == NormalChecks(b) && k in a && k in b && k != "__proto__"
    ensures CheckObject(a[k]) == CheckObject(b[k])
  {
    assert NormalChecks(a)[k] == NormalChecks(b)[k];
    CheckInjective(a[k], b[k]);
  }

  lemma CheckMemberBackward(a: map<string, JsCheck>, b: map<string, JsCheck>, ks: seq<string>, i: nat)
    requires NormalChecks(a) == NormalChecks(b) && Elems(ks) <= a.Keys && Elems(ks) <= b.Keys && "__proto__" !in Elems(ks)
    requires i < |ks|
    ensures CheckMembers(ks, a)[i] == CheckMembers(ks, b)[i]
  {
    assert ks[i] in Elems(ks);
    CheckBackward(a, b, ks[i]);
  }

  lemma ChecksBackward(a: map<string, JsCheck>, b: map<string, JsCheck>)
    requires NormalChecks(a) == NormalChecks(b)
    ensures CheckMembers(BrowserKeys(a.Keys), a) == CheckMembers(BrowserKeys(b.Keys), b)
  {
    assert NormalChecks(a).Keys == a.Keys - {"__proto__"} && NormalChecks(b).Keys == b.Keys - {"__proto__"};
    var ks := BrowserKeys(a.Keys);
    assert ks == BrowserKeys(b.Keys);
    forall i | 0 <= i < |ks| ensures CheckMembers(ks, a)[i] == CheckMembers(ks, b)[i] {
      CheckMemberBackward(a, b, ks, i);
    }
  }

  lemma ChecksInjective(a: map<string, JsCheck>, b: map<string, JsCheck>)
    ensures ChecksObject(a) == ChecksObject(b) <==> NormalChecks(a) == NormalChecks(b)
  {
    if ChecksObject(a) == ChecksObject(b) { ChecksForward(a, b); }
    if NormalChecks(a) == NormalChecks(b) { ChecksBackward(a, b); }
  }

  lemma NamesConcat(a: seq<Field>, b: seq<Field>)
    ensures Names(a + b) == Names(a) + Names(b)
  {
  }

  lemma AwsNames(r: Response)
    ensures Names(AwsFields(r)) == FIELD_NAMES[..7]
  {
  }

  lemma ProviderNames(r: Response)
    ensures Names(ProviderFields(r)) == FIELD_NAMES[7..16]
  {
  }

  lemma ClaimNames(r: Response)
    requires r.checks.Some?
    ensures Names(ClaimFields(r)) == FIELD_NAMES[16..]
  {
  }

  lemma ContentNames(r: Response)
    requires r.checks.Some?
    ensures Names(ContentFields(r)) == FIELD_NAMES
  {
    AwsNames(r);
    ProviderNames(r);
    ClaimNames(r);
    NamesConcat(AwsFields(r), ProviderFields(r));
    NamesConcat(AwsFields(r) + ProviderFields(r), ClaimFields(r));
    assert FIELD_NAMES[..7] + FIELD_NAMES[7..16] + FIELD_NAMES[16..] == FIELD_NAMES;
  }

  lemma FieldNamesDistinct()
    ensures NoDuplicates(FIELD_NAMES)
  {
  }

  const FIELD_NAMES: seq<string> :=
    ["scanner_version", "organization_verified", "org_id", "no_organization", "organization_warning",
     "accounts_listed", "accounts_scanned", "supabase_organization_id", "projects_listed",
     "projects_scanned", "gcp_organization_id", "gcp_projects_listed", "gcp_projects_scanned",
     "azure_management_groups", "azure_subscriptions_listed", "azure_subscriptions_scanned",
     "account_id", "scope_verified", "scope_warning", "time_verified", "time_warning",
     "requested_regions", "scanned_regions", "regions_warning", "checks"]

  lemma AwsFieldsInjective(r: Response, s: Response)
    ensures AwsFields(r) == AwsFields(s) <==>
      var a, b := Normal(r), Normal(s);
      && a.scannerVersion == b.scannerVersion && a.organizationVerified == b.organizationVerified
      && a.orgID == b.orgID && a.noOrganization == b.noOrganization
      && a.organizationWarning == b.organizationWarning && a.accountsListed == b.accountsListed
      && a.accountsScanned == b.accountsScanned
  {
    TextInjective(r.scannerVersion, s.scannerVersion);
    TextInjective(r.orgID, s.orgID);
    TextInjective(r.organizationWarning, s.organizationWarning);
    ListInjective(r.accountsListed, s.accountsListed);
    ListInjective(r.accountsScanned, s.accountsScanned);
    var fs, gs := AwsFields(r), AwsFields(s);
    assert fs == gs ==>
      && fs[0] == gs[0] && fs[1] == gs[1] && fs[2] == gs[2] && fs[3] == gs[3] && fs[4] == gs[4]
      && fs[5] == gs[5] && fs[6] == gs[6];
  }

  lemma ProviderFieldsInjective(r: Response, s: Response)
    ensures ProviderFields(r) == ProviderFields(s) <==>
      var a, b := Normal(r), Normal(s);
      && a.supabaseOrganizationID == b.supabaseOrganizationID
      && a.projectsListed == b.projectsListed && a.projectsScanned == b.projectsScanned
      && a.gcpOrganizationID == b.gcpOrganizationID && a.gcpProjectsListed == b.gcpProjectsListed
      && a.gcpProjectsScanned == b.gcpProjectsScanned && a.azureManagementGroups == b.azureManagementGroups
      && a.azureSubscriptionsListed == b.azureSubscriptionsListed
      && a.azureSubscriptionsScanned == b.azureSubscriptionsScanned
  {
    TextInjective(r.supabaseOrganizationID, s.supabaseOrganizationID);
    TextInjective(r.gcpOrganizationID, s.gcpOrganizationID);
    ListInjective(r.projectsListed, s.projectsListed);
    ListInjective(r.projectsScanned, s.projectsScanned);
    ListInjective(r.gcpProjectsListed, s.gcpProjectsListed);
    ListInjective(r.gcpProjectsScanned, s.gcpProjectsScanned);
    ListInjective(r.azureManagementGroups, s.azureManagementGroups);
    ListInjective(r.azureSubscriptionsListed, s.azureSubscriptionsListed);
    ListInjective(r.azureSubscriptionsScanned, s.azureSubscriptionsScanned);
    var fs, gs := ProviderFields(r), ProviderFields(s);
    assert fs == gs ==>
      && fs[0] == gs[0] && fs[1] == gs[1] && fs[2] == gs[2] && fs[3] == gs[3] && fs[4] == gs[4]
      && fs[5] == gs[5] && fs[6] == gs[6] && fs[7] == gs[7] && fs[8] == gs[8];
  }

  lemma ClaimFieldsEqual(r: Response, s: Response)
    requires r.checks.Some? && s.checks.Some?
    ensures ClaimFields(r) == ClaimFields(s) <==>
      && r.accountID == s.accountID && r.scopeVerified == s.scopeVerified
      && Text(r.scopeWarning) == Text(s.scopeWarning) && r.timeVerified == s.timeVerified
      && Text(r.timeWarning) == Text(s.timeWarning)
      && NullableStrings(r.requestedRegions) == NullableStrings(s.requestedRegions)
      && NullableStrings(r.scannedRegions) == NullableStrings(s.scannedRegions)
      && Text(r.regionsWarning) == Text(s.regionsWarning)
      && ChecksObject(r.checks.value) == ChecksObject(s.checks.value)
  {
    var fs, gs := ClaimFields(r), ClaimFields(s);
    assert fs == gs ==>
      && fs[0] == gs[0] && fs[1] == gs[1] && fs[2] == gs[2] && fs[3] == gs[3] && fs[4] == gs[4]
      && fs[5] == gs[5] && fs[6] == gs[6] && fs[7] == gs[7] && fs[8] == gs[8];
  }

  lemma ClaimFieldsInjective(r: Response, s: Response)
    requires r.checks.Some? && s.checks.Some?
    ensures ClaimFields(r) == ClaimFields(s) <==>
      var a, b := Normal(r), Normal(s);
      && a.accountID == b.accountID && a.scopeVerified == b.scopeVerified && a.scopeWarning == b.scopeWarning
      && a.timeVerified == b.timeVerified && a.timeWarning == b.timeWarning
      && a.requestedRegions == b.requestedRegions && a.scannedRegions == b.scannedRegions
      && a.regionsWarning == b.regionsWarning && a.checks == b.checks
  {
    ClaimFieldsEqual(r, s);
    TextInjective(r.scopeWarning, s.scopeWarning);
    TextInjective(r.timeWarning, s.timeWarning);
    TextInjective(r.regionsWarning, s.regionsWarning);
    NullableStringsEqual(r.requestedRegions, s.requestedRegions);
    NullableStringsEqual(r.scannedRegions, s.scannedRegions);
    ChecksInjective(r.checks.value, s.checks.value);
  }

  ghost function CanonicalText(r: Response): Option<string> {
    var o := ContentObject(r);
    if o.None? then None else Some(Print(o.value, Browser))
  }

  lemma PartsEqual<T>(a: seq<T>, b: seq<T>, c: seq<T>, a': seq<T>, b': seq<T>, c': seq<T>)
    requires |a| == |a'| && |b| == |b'|
    ensures a + b + c == a' + b' + c' <==> a == a' && b == b' && c == c'
  {
    var s, s' := a + b + c, a' + b' + c';
    assert s[..|a|] == a && s'[..|a|] == a';
    assert s[|a|..|a| + |b|] == b && s'[|a|..|a| + |b|] == b';
    assert s[|a| + |b|..] == c && s'[|a| + |b|..] == c';
  }

  lemma FieldsIffNormal(r: Response, s: Response)
    requires r.checks.Some? && s.checks.Some?
    ensures ContentFields(r) == ContentFields(s) <==> Normal(r) == Normal(s)
  {
    AwsFieldsInjective(r, s);
    ProviderFieldsInjective(r, s);
    ClaimFieldsInjective(r, s);
    PartsEqual(AwsFields(r), ProviderFields(r), ClaimFields(r), AwsFields(s), ProviderFields(s), ClaimFields(s));
  }

  /** UNAMBIGUOUS: two responses hash the same text if and only if they differ in nothing but
      empty-versus-absent omitempty fields. Map order never matters, null and [] always do. */
  lemma SameTextIffSameContent(r: Response, s: Response)
    requires r.checks.Some? && s.checks.Some?
    ensures CanonicalText(r) == CanonicalText(s) <==> Normal(r) == Normal(s)
  {
    FieldsIffNormal(r, s);
    if CanonicalText(r) == CanonicalText(s) {
      PrintInjective(ContentObject(r).value, Browser, ContentObject(s).value, Browser);
      ContentNames(r);
      ContentNames(s);
      FieldNamesDistinct();
      KeptInjective(ContentFields(r), ContentFields(s));
    }
  }

  /** Go's nil findings (null) and empty findings ([]) never share a text. */
  lemma NullIsNotEmpty(r: JsResult, s: JsResult)
    requires r.findings == None && s.findings == Some([])
    ensures Print(ResultObject(r), Browser) != Print(ResultObject(s), Browser)
  {
    ResultInjective(r, s);
    if Print(ResultObject(r), Browser) == Print(ResultObject(s), Browser) {
      PrintInjective(ResultObject(r), Browser, ResultObject(s), Browser);
    }
  }
}
