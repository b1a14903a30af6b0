/** json.Marshal(AttestedContent) as the scanner and the ingest handler compute it: fields in
    declaration order, omitempty, nil as null, map keys in byte order. */
module GoMarshal {
  import opened Wrappers
  import opened Sorting
  import opened GoJson
  import opened Canonical
  import opened Report

  function OmitFalse(b: bool): Option<Json> { if b then Some(Bool(true)) else None }

  function OmitEmpty(s: string): Option<Json> { if s == "" then None else Some(Str(s)) }

  function OmitEmptyList(l: Strings): Option<Json> {
    if l.None? || l.value == [] then None else Some(StringsJson(l.value))
  }

  function ResultFields(r: CheckResult): seq<Field> {
    [Field("status", Some(Str(r.status))), Field("findings", Some(NullableStrings(r.findings))),
     Field("count", Some(Num(r.count))), Field("region", OmitEmpty(r.region)),
     Field("evidence", OmitEmptyList(r.evidence))]
  }

  function ResultObject(r: CheckResult): Json {
    Obj(Kept(ResultFields(r)))
  }

  function AccountMembers(ks: seq<string>, m: map<string, CheckResult>): seq<Member>
    requires Elems(ks) <= m.Keys
  {
    seq(|ks|, i requires 0 <= i < |ks| => assert ks[i] in Elems(ks); Member(ks[i], ResultObject(m[ks[i]])))
  }

  ghost function Accounts(m: Option<map<string, CheckResult>>): Option<Json> {
    if m.None? || m.value == map[] then None
    else Some(Obj(AccountMembers(GoSorted(m.value.Keys), m.value)))
  }

  ghost function CheckFields(c: CheckOutput): seq<Field> {
    [Field("title", Some(Str(c.title))), Field("tier", Some(Str(c.tier))),
     Field("result", Some(ResultObject(c.result))), Field("accounts", Accounts(c.accounts))]
  }

  ghost function CheckObject(c: CheckOutput): Json {
    Obj(Kept(CheckFields(c)))
  }

  ghost function CheckMembers(ks: seq<string>, m: map<string, CheckOutput>): seq<Member>
    requires Elems(ks) <= m.Keys
  {
    seq(|ks|, i requires 0 <= i < |ks| => assert ks[i] in Elems(ks); Member(ks[i], CheckObject(m[ks[i]])))
  }

  ghost function ChecksObject(c: Checks): Json {
    if c.None? then Null else Obj(CheckMembers(GoSorted(c.value.Keys), c.value))
  }

  function AwsFields(c: AttestedContent): seq<Field> {
    [Field("scanner_version", OmitEmpty(c.scannerVersion)),
     Field("organization_verified", OmitFalse(c.organizationVerified)),
     Field("org_id", OmitEmpty(c.orgID)),
     Field("no_organization", OmitFalse(c.noOrganization)),
     Field("organization_warning", OmitEmpty(c.organizationWarning)),
     Field("accounts_listed", OmitEmptyList(c.accountsListed)),
     Field("accounts_scanned", OmitEmptyList(c.accountsScanned))]
  }

  function ProviderFields(c: AttestedContent): seq<Field> {
    [Field("supabase_organization_id", OmitEmpty(c.supabaseOrganizationID)),
     Field("projects_listed", OmitEmptyList(c.projectsListed)),
     Field("projects_scanned", OmitEmptyList(c.projectsScanned)),
     Field("gcp_organization_id", OmitEmpty(c.gcpOrganizationID)),
     Field("gcp_projects_listed", OmitEmptyList(c.gcpProjectsListed)),
     Field("gcp_projects_scanned", OmitEmptyList(c.gcpProjectsScanned)),
     Field("azure_management_groups", OmitEmptyList(c.azureManagementGroups)),
     Field("azure_subscriptions_listed", OmitEmptyList(c.azureSubscriptionsListed)),
     Field("azure_subscriptions_scanned", OmitEmptyList(c.azureSubscriptionsScanned))]
  }

  function ClaimFieldsWith(c: AttestedContent, checks: Json): seq<Field> {
    [Field("account_id", Some(Str(c.accountID))),
     Field("scope_verified", Some(Bool(c.scopeVerified))),
     Field("scope_warning", OmitEmpty(c.scopeWarning)),
     Field("time_verified", Some(Bool(c.timeVerified))),
     Field("time_warning", OmitEmpty(c.timeWarning)),
     Field("requested_regions", Some(NullableStrings(c.requestedRegions))),
     Field("scanned_regions", Some(NullableStrings(c.scannedRegions))),
     Field("regions_warning", OmitEmpty(c.regionsWarning)),
     Field("checks", Some(checks))]
  }

  ghost function ClaimFields(c: AttestedContent): seq<Field> { ClaimFieldsWith(c, ChecksObject(c.checks)) }

  ghost function ContentFields(c: AttestedContent): seq<Field> {
    AwsFields(c) + ProviderFields(c) + ClaimFields(c)
  }

  ghost function ContentObject(c: AttestedContent): Json {
    Obj(Kept(ContentFields(c)))
  }

  /** The bytes that are hashed and sealed. */
  ghost function Marshal(c: AttestedContent): string {
    Print(ContentObject(c), GoEncoder)
  }

  // ---- json.Marshal, which sorts the keys of every map ----

  lemma TakeNext<T>(s: seq<T>, i: nat)
    requires i < |s|
    ensures s[..i + 1] == s[..i] + [s[i]]
  {
  }

  method SortedKeys<V>(m: map<string, V>) returns (ks: seq<string>)
    ensures ks == GoSorted(m.Keys)
  {
    var keys := Keys(m);
    ks := SortStrings(keys);
  }

  method MarshalAccounts(m: Option<map<string, CheckResult>>) returns (r: Option<Json>)
    ensures r == Accounts(m)
  {
    if m.None? || m.value == map[] { return None; }
    var ks := SortedKeys(m.value);
    r := Some(Obj(AccountMembers(ks, m.value)));
  }

  method MarshalCheck(c: CheckOutput) returns (r: Json)
    ensures r == CheckObject(c)
  {
    var accounts := MarshalAccounts(c.accounts);
    r := Obj(Kept([Field("title", Some(Str(c.title))), Field("tier", Some(Str(c.tier))),
                   Field("result", Some(ResultObject(c.result))), Field("accounts", accounts)]));
  }

  method MarshalMember(ks: seq<string>, m: map<string, CheckOutput>, i: nat) returns (member: Member)
    requires Elems(ks) <= m.Keys && i < |ks|
    ensures member == CheckMembers(ks, m)[i]
  {
    assert ks[i] in Elems(ks);
    var c := MarshalCheck(m[ks[i]]);
    member := Member(ks[i], c);
  }

  method MarshalChecks(c: Checks) returns (r: Json)
    ensures r == ChecksObject(c)
  {
    if c.None? { return Null; }
    var ks := SortedKeys(c.value);
    var ms := [];
    ghost var all := CheckMembers(ks, c.value);
    for i := 0 to |ks|
      invariant ms == all[..i]
    {
      var member := MarshalMember(ks, c.value, i);
      ms := ms + [member];
      TakeNext(all, i);
    }
    r := Obj(ms);
  }

  method MarshalContent(c: AttestedContent) returns (text: string)
    ensures text == Marshal(c)
  {
    var checks := MarshalChecks(c.checks);
    text := Print(Obj(Kept(AwsFields(c) + ProviderFields(c) + ClaimFieldsWith(c, checks))), GoEncoder);
  }
}
