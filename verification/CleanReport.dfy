/** Which reports hold the two control characters that Go and the browser escape differently, told
    from the report itself. */
module CleanReport {
  import opened Wrappers
  import opened Sorting
  import opened GoJson
  import opened Canonical
  import opened Report
  import opened GoMarshal

  predicate CleanAll(xs: seq<string>) { forall s | s in xs :: CleanString(s) }

  predicate CleanResult(r: CheckResult) {
    CleanString(r.status) && CleanAll(Items(r.findings)) && CleanString(r.region) && CleanAll(Items(r.evidence))
  }

  predicate CleanAccounts(m: map<string, CheckResult>) { forall k | k in m :: CleanString(k) && CleanResult(m[k]) }

  predicate CleanCheck(c: CheckOutput) {
    CleanString(c.title) && CleanString(c.tier) && CleanResult(c.result) && CleanAccounts(AccountMap(c))
  }

  predicate CleanChecks(m: map<string, CheckOutput>) { forall k | k in m :: CleanString(k) && CleanCheck(m[k]) }

  predicate CleanAws(c: AttestedContent) {
    && CleanString(c.scannerVersion) && CleanString(c.orgID) && CleanString(c.organizationWarning)
    && CleanAll(Items(c.accountsListed)) && CleanAll(Items(c.accountsScanned))
  }

  predicate CleanProviders(c: AttestedContent) {
    && CleanString(c.supabaseOrganizationID) && CleanAll(Items(c.projectsListed)) && CleanAll(Items(c.projectsScanned))
    && CleanString(c.gcpOrganizationID) && CleanAll(Items(c.gcpProjectsListed)) && CleanAll(Items(c.gcpProjectsScanned))
    && CleanAll(Items(c.azureManagementGroups)) && CleanAll(Items(c.azureSubscriptionsListed))
    && CleanAll(Items(c.azureSubscriptionsScanned))
  }

  predicate CleanClaimTexts(c: AttestedContent) {
    && CleanString(c.accountID) && CleanString(c.scopeWarning) && CleanString(c.timeWarning)
    && CleanAll(Items(c.requestedRegions)) && CleanAll(Items(c.scannedRegions)) && CleanString(c.regionsWarning)
  }

  predicate CleanClaims(c: AttestedContent) { CleanClaimTexts(c) && CleanChecks(CheckMap(c.checks)) }

  /** No string of the report, map keys included, contains U+0008 or U+000C. */
  predicate CleanContent(c: AttestedContent) { CleanAws(c) && CleanProviders(c) && CleanClaims(c) }

  // ---- fields ----

  predicate CleanField(f: Field) { f.value.Some? ==> Clean(f.value.value) }

  predicate AllClean(fs: seq<Field>) { forall i | 0 <= i < |fs| :: CleanField(fs[i]) }

  predicate CleanNames(fs: seq<Field>) { forall i | 0 <= i < |fs| :: CleanString(fs[i].name) }

  lemma {:induction false} KeptClean(fs: seq<Field>)
    requires CleanNames(fs)
    ensures Clean(Obj(Kept(fs))) <==> AllClean(fs)
  {
    if fs != [] {
      var n := |fs| - 1;
      KeptClean(fs[..n]);
      var f := fs[n];
      if f.value.Some? {
        var last := Member(f.name, f.value.value);
        assert Kept(fs) == Kept(fs[..n]) + [last];
        assert last in Kept(fs);
        assert Clean(Obj(Kept(fs))) <==> Clean(Obj(Kept(fs[..n]))) && CleanString(last.key) && Clean(last.value);
      } else {
        assert Kept(fs) == Kept(fs[..n]);
      }
    }
  }

  lemma FieldNullable(f: Field, l: Strings)
    requires f.value == Some(NullableStrings(l))
    ensures CleanField(f) <==> CleanAll(Items(l))
  {
    if l.Some? { CleanStrings(l.value); }
  }

  lemma FieldList(f: Field, l: Strings)
    requires f.value == OmitEmptyList(l)
    ensures CleanField(f) <==> CleanAll(Items(l))
  {
    if l.Some? { CleanStrings(l.value); }
  }

  lemma CleanStrings(xs: seq<string>)
    ensures Clean(StringsJson(xs)) <==> CleanAll(xs)
  {
    var items := StringsJson(xs).items;
    if CleanAll(xs) {
      forall w | w in items ensures Clean(w) {
        var i :| 0 <= i < |items| && items[i] == w;
        assert xs[i] in xs;
      }
    }
    if Clean(StringsJson(xs)) {
      forall s | s in xs ensures CleanString(s) {
        var i :| 0 <= i < |xs| && xs[i] == s;
        assert items[i] == Str(s) && items[i] in items;
        assert Clean(items[i]);
      }
    }
  }

  lemma FieldText(f: Field, s: string)
    requires f.value == OmitEmpty(s)
    ensures CleanField(f) <==> CleanString(s)
  {
  }

  // ---- names ----

  lemma ResultNames(r: CheckResult)
    ensures CleanNames(ResultFields(r))
  {
    var fs := ResultFields(r);
    assert CleanString(fs[0].name) && CleanString(fs[1].name) && CleanString(fs[2].name);
    assert CleanString(fs[3].name) && CleanString(fs[4].name);
  }

  lemma CheckNames(c: CheckOutput)
    ensures CleanNames(CheckFields(c))
  {
    var fs := CheckFields(c);
    assert CleanString(fs[0].name) && CleanString(fs[1].name) && CleanString(fs[2].name) && CleanString(fs[3].name);
  }

  // The longer lists name by name, a few at a time.

  lemma AwsNames1()
    ensures CleanString("scanner_version") && CleanString("organization_verified") && CleanString("org_id")
  {
  }

  lemma AwsNames2()
    ensures CleanString("no_organization") && CleanString("organization_warning")
  {
  }

  lemma AwsNames3()
    ensures CleanString("accounts_listed") && CleanString("accounts_scanned")
  {
  }

  lemma AwsNames(c: AttestedContent)
    ensures CleanNames(AwsFields(c))
  {
    AwsNames1(); AwsNames2(); AwsNames3();
  }

  lemma ProviderNames1()
    ensures CleanString("supabase_organization_id") && CleanString("projects_listed") && CleanString("projects_scanned")
  {
  }

  lemma ProviderNames2()
    ensures CleanString("gcp_organization_id") && CleanString("gcp_projects_listed") && CleanString("gcp_projects_scanned")
  {
  }

  lemma ProviderNames3()
    ensures CleanString("azure_management_groups") && CleanString("azure_subscriptions_listed")
  {
  }

  lemma ProviderNames4()
    ensures CleanString("azure_subscriptions_scanned")
  {
  }

  lemma ProviderNames(c: AttestedContent)
    ensures CleanNames(ProviderFields(c))
  {
    ProviderNames1(); ProviderNames2(); ProviderNames3(); ProviderNames4();
  }

  lemma ClaimNames1()
    ensures CleanString("account_id") && CleanString("scope_verified") && CleanString("scope_warning")
  {
  }

  lemma ClaimNames2()
    ensures CleanString("time_verified") && CleanString("time_warning") && CleanString("checks")
  {
  }

  lemma ClaimNames3()
    ensures CleanString("requested_regions") && CleanString("scanned_regions") && CleanString("regions_warning")
  {
  }

  lemma ClaimNames(c: AttestedContent)
    ensures CleanNames(ClaimFields(c))
  {
    ClaimNames1(); ClaimNames2(); ClaimNames3();
  }

  // ---- objects ----

  lemma ResultClean(r: CheckResult)
    ensures Clean(ResultObject(r)) <==> CleanResult(r)
  {
    ResultNames(r);
    KeptClean(ResultFields(r));
    var fs := ResultFields(r);
    FieldNullable(fs[1], r.findings);
    FieldText(fs[3], r.region);
    FieldList(fs[4], r.evidence);
    assert CleanField(fs[0]) <==> CleanString(r.status);
  }

  lemma AccountsClean(m: map<string, CheckResult>, ks: seq<string>)
    requires Elems(ks) == m.Keys
    ensures Clean(Obj(AccountMembers(ks, m))) <==> CleanAccounts(m)
  {
    var members := AccountMembers(ks, m);
    forall k | k in m ensures exists i :: 0 <= i < |ks| && ks[i] == k { assert k in Elems(ks); }
    forall i | 0 <= i < |ks|
      ensures ks[i] in m && (CleanMember(members[i]) <==> CleanString(ks[i]) && CleanResult(m[ks[i]]))
    {
      assert ks[i] in Elems(ks);
      ResultClean(m[ks[i]]);
    }
    MembersClean(members);
  }

  lemma MembersClean(members: seq<Member>)
    ensures Clean(Obj(members)) <==> forall i | 0 <= i < |members| :: CleanMember(members[i])
  {
    forall i | 0 <= i < |members| ensures members[i] in members {}
    if Clean(Obj(members)) {
      forall i | 0 <= i < |members| ensures CleanMember(members[i]) { assert members[i] in members; }
    }
  }

  lemma AccountsFieldClean(f: Field, c: CheckOutput)
    requires f.value == Accounts(c.accounts)
    ensures CleanField(f) <==> CleanAccounts(AccountMap(c))
  {
    if AccountMap(c) != map[] { AccountsClean(AccountMap(c), GoSorted(AccountMap(c).Keys)); }
  }

  lemma FieldObject(f: Field, r: CheckResult)
    requires f.value == Some(ResultObject(r))
    ensures CleanField(f) <==> CleanResult(r)
  {
    ResultClean(r);
  }

  lemma FieldString(f: Field, s: string)
    requires f.value == Some(Str(s))
    ensures CleanField(f) <==> CleanString(s)
  {
  }

  lemma CheckFieldsClean(c: CheckOutput)
    ensures AllClean(CheckFields(c)) <==> CleanCheck(c)
  {
    var fs := CheckFields(c);
    FieldString(fs[0], c.title);
    FieldString(fs[1], c.tier);
    FieldObject(fs[2], c.result);
    AccountsFieldClean(fs[3], c);
  }

  lemma CheckClean(c: CheckOutput)
    ensures Clean(CheckObject(c)) <==> CleanCheck(c)
  {
    CheckNames(c);
    CheckFieldsClean(c);
    KeptClean(CheckFields(c));
  }

  lemma ChecksClean(m: map<string, CheckOutput>, ks: seq<string>)
    requires Elems(ks) == m.Keys
    ensures Clean(Obj(CheckMembers(ks, m))) <==> CleanChecks(m)
  {
    var members := CheckMembers(ks, m);
    forall k | k in m ensures exists i :: 0 <= i < |ks| && ks[i] == k { assert k in Elems(ks); }
    forall i | 0 <= i < |ks|
      ensures ks[i] in m && (CleanMember(members[i]) <==> CleanString(ks[i]) && CleanCheck(m[ks[i]]))
    {
      assert ks[i] in Elems(ks);
      CheckClean(m[ks[i]]);
    }
    MembersClean(members);
  }

  lemma AwsClean(c: AttestedContent)
    ensures AllClean(AwsFields(c)) <==> CleanAws(c)
  {
    var fs := AwsFields(c);
    FieldText(fs[0], c.scannerVersion);
    FieldText(fs[2], c.orgID);
    FieldText(fs[4], c.organizationWarning);
    FieldList(fs[5], c.accountsListed);
    FieldList(fs[6], c.accountsScanned);
  }

  lemma ProvidersClean(c: AttestedContent)
    ensures AllClean(ProviderFields(c)) <==> CleanProviders(c)
  {
    var fs := ProviderFields(c);
    FieldText(fs[0], c.supabaseOrganizationID);
    FieldList(fs[1], c.projectsListed);
    FieldList(fs[2], c.projectsScanned);
    FieldText(fs[3], c.gcpOrganizationID);
    FieldList(fs[4], c.gcpProjectsListed);
    FieldList(fs[5], c.gcpProjectsScanned);
    FieldList(fs[6], c.azureManagementGroups);
    FieldList(fs[7], c.azureSubscriptionsListed);
    FieldList(fs[8], c.azureSubscriptionsScanned);
  }

  lemma ChecksFieldClean(f: Field, c: AttestedContent)
    requires f.value == Some(ChecksObject(c.checks))
    ensures CleanField(f) <==> CleanChecks(CheckMap(c.checks))
  {
    if c.checks.Some? { ChecksClean(c.checks.value, GoSorted(c.checks.value.Keys)); }
  }

  lemma ClaimTextsClean(c: AttestedContent, fs: seq<Field>)
    requires fs == ClaimFields(c)[..8]
    ensures AllClean(fs) <==> CleanClaimTexts(c)
  {
    FieldText(fs[2], c.scopeWarning);
    FieldText(fs[4], c.timeWarning);
    FieldNullable(fs[5], c.requestedRegions);
    FieldNullable(fs[6], c.scannedRegions);
    FieldText(fs[7], c.regionsWarning);
    assert CleanField(fs[0]) <==> CleanString(c.accountID);
    assert CleanField(fs[1]) && CleanField(fs[3]);
  }

  lemma ClaimsClean(c: AttestedContent)
    ensures AllClean(ClaimFields(c)) <==> CleanClaims(c)
  {
    var fs := ClaimFields(c);
    ClaimTextsClean(c, fs[..8]);
    ChecksFieldClean(fs[8], c);
    AllCleanConcat(fs[..8], [fs[8]]);
    assert fs == fs[..8] + [fs[8]];
    assert AllClean([fs[8]]) <==> CleanField(fs[8]);
  }

  lemma AllCleanConcat(a: seq<Field>, b: seq<Field>)
    ensures AllClean(a + b) <==> AllClean(a) && AllClean(b)
    ensures CleanNames(a + b) <==> CleanNames(a) && CleanNames(b)
  {
    assert forall i | 0 <= i < |a| :: (a + b)[i] == a[i];
    assert forall i | 0 <= i < |b| :: (a + b)[|a| + i] == b[i];
  }

  /** The printed object is clean exactly when the report is. */
  lemma ContentClean(c: AttestedContent)
    ensures Clean(ContentObject(c)) <==> CleanContent(c)
  {
    var x, y, z := AwsFields(c), ProviderFields(c), ClaimFields(c);
    AwsNames(c);
    ProviderNames(c);
    ClaimNames(c);
    AwsClean(c);
    ProvidersClean(c);
    ClaimsClean(c);
    AllCleanConcat(x, y);
    AllCleanConcat(x + y, z);
    KeptClean(ContentFields(c));
  }
}
