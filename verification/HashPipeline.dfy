/** The way of a report from ingest to the buyer's browser: handleCreateVerdict, the database row,
    verdictToView, the JSON response, and checkResultsHash. SHA-384 is a parameter. */
module HashPipeline {
  import opened Wrappers
  import opened Sorting
  import opened GoJson
  import opened Canonical
  import opened Report
  import opened ScopeValidation
  import opened CleanReport
  import GoMarshal
  import HashTs

  // ---- handler to row (internal/api/handlers.go:121-154) ----

  type NewVerdict = Fields<bool, string, Option<string>, Strings, Strings, Checks>

  function EmptyToNil(s: string): Option<string> { if s == "" then None else Some(s) }

  function ToNewVerdict(c: AttestedContent): NewVerdict {
    Fields(c.scannerVersion, c.organizationVerified, EmptyToNil(c.orgID), c.noOrganization,
           EmptyToNil(c.organizationWarning), c.accountsListed, c.accountsScanned,
           EmptyToNil(c.supabaseOrganizationID), c.projectsListed, c.projectsScanned,
           EmptyToNil(c.gcpOrganizationID), c.gcpProjectsListed, c.gcpProjectsScanned,
           c.azureManagementGroups, c.azureSubscriptionsListed, c.azureSubscriptionsScanned,
           c.accountID, c.scopeVerified, EmptyToNil(c.scopeWarning), c.timeVerified,
           EmptyToNil(c.timeWarning), c.requestedRegions, c.scannedRegions,
           EmptyToNil(c.regionsWarning), c.checks)
  }

  // ---- the row as it is read back (internal/store/store.go:311-323) ----

  type Row = Fields<bool, string, Option<string>, seq<string>, seq<string>, Checks>

  /** Encoding a result with omitempty and decoding it again. */
  function StoredResult(r: CheckResult): CheckResult {
    r.(evidence := if r.evidence == Some([]) then None else r.evidence)
  }

  function StoredResults(m: map<string, CheckResult>): map<string, CheckResult> {
    map k | k in m :: StoredResult(m[k])
  }

  function StoredCheck(c: CheckOutput): CheckOutput {
    c.(result := StoredResult(c.result),
       accounts := if c.accounts.None? || c.accounts.value == map[] then None
                   else Some(StoredResults(c.accounts.value)))
  }

  function StoredCheckMap(m: map<string, CheckOutput>): map<string, CheckOutput> {
    map k | k in m :: StoredCheck(m[k])
  }

  /** A database made by the migrations as they are, or one older than migrations/0003 that it has brought
      up to date: there the account columns may be NULL. */
  datatype Schema = Migrated | Upgraded

  /** Which columns are NOT NULL; the lists of the other providers are nullable in both. */
  predicate Storable(schema: Schema, v: NewVerdict) {
    && v.requestedRegions.Some? && v.scannedRegions.Some?
    && (schema.Migrated? ==> v.accountsListed.Some? && v.accountsScanned.Some?)
  }

  /** The inserted row; a list that is NULL is COALESCEd to the empty array when it is read. */
  function Stored(schema: Schema, v: NewVerdict): Option<Row> {
    if !Storable(schema, v) then None
    else Some(Fields(
      v.scannerVersion, v.organizationVerified, v.orgID, v.noOrganization, v.organizationWarning,
      Items(v.accountsListed), Items(v.accountsScanned), v.supabaseOrganizationID,
      Items(v.projectsListed), Items(v.projectsScanned), v.gcpOrganizationID,
      Items(v.gcpProjectsListed), Items(v.gcpProjectsScanned), Items(v.azureManagementGroups),
      Items(v.azureSubscriptionsListed), Items(v.azureSubscriptionsScanned), v.accountID,
      v.scopeVerified, v.scopeWarning, v.timeVerified, v.timeWarning,
      v.requestedRegions.value, v.scannedRegions.value, v.regionsWarning,
      if v.checks.None? then None else Some(StoredCheckMap(v.checks.value))))
  }

  // ---- row to view (internal/api/view.go:69-124) ----

  type View = Fields<bool, string, string, seq<string>, seq<string>, Checks>

  function DerefOrEmpty(s: Option<string>): string { s.GetOr("") }

  function VerdictToView(v: Row): View {
    Fields(v.scannerVersion, v.organizationVerified, DerefOrEmpty(v.orgID), v.noOrganization,
           DerefOrEmpty(v.organizationWarning), v.accountsListed, v.accountsScanned,
           DerefOrEmpty(v.supabaseOrganizationID), v.projectsListed, v.projectsScanned,
           DerefOrEmpty(v.gcpOrganizationID), v.gcpProjectsListed, v.gcpProjectsScanned,
           v.azureManagementGroups, v.azureSubscriptionsListed, v.azureSubscriptionsScanned,
           v.accountID, v.scopeVerified, DerefOrEmpty(v.scopeWarning), v.timeVerified,
           DerefOrEmpty(v.timeWarning), v.requestedRegions, v.scannedRegions,
           DerefOrEmpty(v.regionsWarning), v.checks)
  }

  // ---- view to response: omitempty (internal/api/view.go:22-60), then JSON.parse ----

  function Present(s: string): Option<string> { if s == "" then None else Some(s) }

  function PresentList(l: seq<string>): Option<seq<string>> { if l == [] then None else Some(l) }

  function PresentFlag(b: bool): Option<bool> { if b then Some(true) else None }

  /** number is what String(JSON.parse(n)) denotes for the decimal numeral n. */
  function ReceivedResult(r: CheckResult, number: int -> int): HashTs.JsResult {
    HashTs.JsResult(r.status, r.findings, number(r.count), Present(r.region), PresentList(Items(r.evidence)))
  }

  function ReceivedResults(m: map<string, CheckResult>, number: int -> int): map<string, HashTs.JsResult> {
    map k | k in m :: ReceivedResult(m[k], number)
  }

  function ReceivedCheck(c: CheckOutput, number: int -> int): HashTs.JsCheck {
    HashTs.JsCheck(c.title, c.tier, ReceivedResult(c.result, number),
      if AccountMap(c) == map[] then None else Some(ReceivedResults(AccountMap(c), number)))
  }

  function ReceivedChecks(m: map<string, CheckOutput>, number: int -> int): map<string, HashTs.JsCheck> {
    map k | k in m :: ReceivedCheck(m[k], number)
  }

  function Received(v: View, number: int -> int): HashTs.Response {
    Fields(Present(v.scannerVersion), PresentFlag(v.organizationVerified), Present(v.orgID),
           PresentFlag(v.noOrganization), Present(v.organizationWarning), PresentList(v.accountsListed),
           PresentList(v.accountsScanned), Present(v.supabaseOrganizationID), PresentList(v.projectsListed),
           PresentList(v.projectsScanned), Present(v.gcpOrganizationID), PresentList(v.gcpProjectsListed),
           PresentList(v.gcpProjectsScanned), PresentList(v.azureManagementGroups),
           PresentList(v.azureSubscriptionsListed), PresentList(v.azureSubscriptionsScanned),
           v.accountID, v.scopeVerified, Present(v.scopeWarning), v.timeVerified, Present(v.timeWarning),
           Some(v.requestedRegions), Some(v.scannedRegions), Present(v.regionsWarning),
           if v.checks.None? then None else Some(ReceivedChecks(v.checks.value, number)))
  }

  /** Wherever a row is inserted it is the same row. */
  lemma SameRow(v: NewVerdict, schema: Schema)
    requires Stored(schema, v).Some?
    ensures Stored(Upgraded, v) == Stored(schema, v)
  {
  }

  /** What the browser holds for a stored report. */
  function Delivered(c: AttestedContent, number: int -> int): Option<HashTs.Response> {
    var row := Stored(Upgraded, ToNewVerdict(c));
    if row.None? then None else Some(Received(VerdictToView(row.value), number))
  }

  // ---- the same printed object ----

  /** Integers a JavaScript number holds exactly. */
  ghost predicate ExactOnSafeIntegers(number: int -> int) {
    forall n | -0x1F_FFFF_FFFF_FFFF <= n <= 0x1F_FFFF_FFFF_FFFF :: number(n) == n
  }

  predicate SafeResult(r: CheckResult) { -0x1F_FFFF_FFFF_FFFF <= r.count <= 0x1F_FFFF_FFFF_FFFF }

  predicate SafeCheck(c: CheckOutput) {
    SafeResult(c.result) && forall k | k in AccountMap(c) :: SafeResult(AccountMap(c)[k])
  }

  predicate SafeCounts(c: AttestedContent) {
    forall k | k in CheckMap(c.checks) :: SafeCheck(CheckMap(c.checks)[k])
  }

  /** The keys of every map of the report come out in the same order in both languages. */
  ghost predicate KeyOrdersAgree(m: map<string, CheckOutput>) {
    KeysAgree(m.Keys) && forall k | k in m :: KeysAgree(AccountMap(m[k]).Keys)
  }

  lemma EmptyKeysAgree()
    ensures KeysAgree({})
  {
    PlainKeysAgree({});
  }

  function Roundtrip(r: CheckResult, number: int -> int): HashTs.JsResult {
    ReceivedResult(StoredResult(r), number)
  }

  lemma SameResult(r: CheckResult, number: int -> int)
    requires number(r.count) == r.count
    ensures HashTs.ResultObject(Roundtrip(r, number)) == GoMarshal.ResultObject(r)
  {
    assert HashTs.ResultFields(Roundtrip(r, number)) == GoMarshal.ResultFields(r);
  }

  lemma SameAccountMembers(ks: seq<string>, m: map<string, CheckResult>, number: int -> int)
    requires ExactOnSafeIntegers(number) && (forall k | k in m :: SafeResult(m[k])) && Elems(ks) <= m.Keys
    ensures HashTs.AccountMembers(ks, ReceivedResults(StoredResults(m), number)) == GoMarshal.AccountMembers(ks, m)
  {
    forall i | 0 <= i < |ks|
      ensures ks[i] in m && HashTs.ResultObject(ReceivedResults(StoredResults(m), number)[ks[i]]) == GoMarshal.ResultObject(m[ks[i]])
    {
      assert ks[i] in Elems(ks);
      SameResult(m[ks[i]], number);
    }
  }

  lemma AccountKeysRecovered(ka: seq<string>, kb: seq<string>, m: map<string, CheckResult>)
    requires Elems(ka) <= m.Keys && Elems(kb) <= m.Keys
    requires GoMarshal.AccountMembers(ka, m) == GoMarshal.AccountMembers(kb, m)
    ensures ka == kb
  {
    var a, b := GoMarshal.AccountMembers(ka, m), GoMarshal.AccountMembers(kb, m);
    assert |ka| == |a| == |b| == |kb|;
    assert forall i | 0 <= i < |ka| :: a[i].key == ka[i] && b[i].key == kb[i];
  }

  lemma SameAccountsIn(m: map<string, CheckResult>, number: int -> int)
    requires ExactOnSafeIntegers(number) && (forall k | k in m :: SafeResult(m[k]))
    ensures
      var d := ReceivedResults(StoredResults(m), number);
      d.Keys == m.Keys
      && (HashTs.AccountMembers(BrowserKeys(m.Keys), d) == GoMarshal.AccountMembers(GoSorted(m.Keys), m) <==> KeysAgree(m.Keys))
  {
    assert StoredResults(m).Keys == m.Keys;
    var kb, kg := BrowserKeys(m.Keys), GoSorted(m.Keys);
    SameOrderIff(m.Keys);
    SameAccountMembers(kb, m, number);
    if GoMarshal.AccountMembers(kb, m) == GoMarshal.AccountMembers(kg, m) { AccountKeysRecovered(kb, kg, m); }
  }

  lemma SameAccounts(c: CheckOutput, number: int -> int)
    requires ExactOnSafeIntegers(number) && SafeCheck(c)
    ensures HashTs.Accounts(ReceivedCheck(StoredCheck(c), number).accounts) == GoMarshal.Accounts(c.accounts)
      <==> KeysAgree(AccountMap(c).Keys)
  {
    var m := AccountMap(c);
    if m == map[] {
      EmptyKeysAgree();
      assert m.Keys == {};
    } else {
      SameAccountsIn(m, number);
      assert ReceivedCheck(StoredCheck(c), number).accounts == Some(ReceivedResults(StoredResults(m), number));
    }
  }

  lemma SameCheck(c: CheckOutput, number: int -> int)
    requires ExactOnSafeIntegers(number) && SafeCheck(c)
    ensures HashTs.CheckObject(ReceivedCheck(StoredCheck(c), number)) == GoMarshal.CheckObject(c)
      <==> KeysAgree(AccountMap(c).Keys)
  {
    var d := ReceivedCheck(StoredCheck(c), number);
    SameResult(c.result, number);
    SameAccounts(c, number);
    var fs, gs := HashTs.CheckFields(d), GoMarshal.CheckFields(c);
    assert fs == gs <==> HashTs.Accounts(d.accounts) == GoMarshal.Accounts(c.accounts) by {
      assert fs == gs ==> fs[3] == gs[3];
    }
    HashTs.CheckNames(d);
    assert Names(gs) == HashTs.CHECK_NAMES;
    ObjectsEqual(fs, gs, HashTs.CHECK_NAMES);
  }

  lemma CheckKeysRecovered(kb: seq<string>, kg: seq<string>, m: map<string, CheckOutput>, d: map<string, HashTs.JsCheck>)
    requires Elems(kb) <= d.Keys && Elems(kg) <= m.Keys
    requires HashTs.CheckMembers(kb, d) == GoMarshal.CheckMembers(kg, m)
    ensures kb == kg
    ensures forall i | 0 <= i < |kg| :: kg[i] in d && kg[i] in m && HashTs.CheckObject(d[kg[i]]) == GoMarshal.CheckObject(m[kg[i]])
  {
    var a, b := HashTs.CheckMembers(kb, d), GoMarshal.CheckMembers(kg, m);
    assert |kb| == |a| == |b| == |kg|;
    forall i | 0 <= i < |kg|
      ensures kb[i] == kg[i] && kg[i] in d && kg[i] in m && HashTs.CheckObject(d[kg[i]]) == GoMarshal.CheckObject(m[kg[i]])
    {
      assert kb[i] in Elems(kb) && kg[i] in Elems(kg);
      assert a[i] == b[i] && a[i].key == kb[i] && b[i].key == kg[i];
    }
  }

  lemma CheckMembersEqual(ks: seq<string>, m: map<string, CheckOutput>, d: map<string, HashTs.JsCheck>)
    requires Elems(ks) <= d.Keys && Elems(ks) <= m.Keys
    requires forall k | k in Elems(ks) :: HashTs.CheckObject(d[k]) == GoMarshal.CheckObject(m[k])
    ensures HashTs.CheckMembers(ks, d) == GoMarshal.CheckMembers(ks, m)
  {
    forall i | 0 <= i < |ks| ensures HashTs.CheckMembers(ks, d)[i] == GoMarshal.CheckMembers(ks, m)[i] {
      assert ks[i] in Elems(ks);
    }
  }

  lemma SameCheckMembers(kb: seq<string>, kg: seq<string>, m: map<string, CheckOutput>, number: int -> int)
    requires ExactOnSafeIntegers(number) && (forall k | k in m :: SafeCheck(m[k]))
    requires Elems(kb) <= m.Keys && Elems(kg) == m.Keys
    ensures HashTs.CheckMembers(kb, ReceivedChecks(StoredCheckMap(m), number)) == GoMarshal.CheckMembers(kg, m)
      <==> kb == kg && forall k | k in m :: KeysAgree(AccountMap(m[k]).Keys)
  {
    var d := ReceivedChecks(StoredCheckMap(m), number);
    forall k | k in m
      ensures k in d && (HashTs.CheckObject(d[k]) == GoMarshal.CheckObject(m[k]) <==> KeysAgree(AccountMap(m[k]).Keys))
    {
      SameCheck(m[k], number);
    }
    if HashTs.CheckMembers(kb, d) == GoMarshal.CheckMembers(kg, m) {
      CheckKeysRecovered(kb, kg, m, d);
      forall k | k in m ensures exists i :: 0 <= i < |kg| && kg[i] == k { assert k in Elems(kg); }
    }
    if kb == kg && forall k | k in m :: KeysAgree(AccountMap(m[k]).Keys) {
      CheckMembersEqual(kg, m, d);
    }
  }

  lemma SameChecks(m: map<string, CheckOutput>, number: int -> int)
    requires ExactOnSafeIntegers(number) && (forall k | k in m :: SafeCheck(m[k]))
    ensures HashTs.ChecksObject(ReceivedChecks(StoredCheckMap(m), number)) == GoMarshal.ChecksObject(Some(m))
      <==> KeyOrdersAgree(m)
  {
    assert ReceivedChecks(StoredCheckMap(m), number).Keys == m.Keys by {
      assert StoredCheckMap(m).Keys == m.Keys;
    }
    SameOrderIff(m.Keys);
    SameCheckMembers(BrowserKeys(m.Keys), GoSorted(m.Keys), m, number);
  }

  lemma SameAwsFields(c: AttestedContent, number: int -> int)
    requires Delivered(c, number).Some?
    ensures HashTs.AwsFields(Delivered(c, number).value) == GoMarshal.AwsFields(c)
  {
  }

  lemma SameText(s: string)
    ensures HashTs.Text(Present(DerefOrEmpty(EmptyToNil(s)))) == GoMarshal.OmitEmpty(s)
  {
  }

  lemma SameList(l: Strings)
    ensures HashTs.List(PresentList(Items(l))) == GoMarshal.OmitEmptyList(l)
  {
  }

  lemma SameProviderFields(c: AttestedContent, number: int -> int)
    requires Delivered(c, number).Some?
    ensures HashTs.ProviderFields(Delivered(c, number).value) == GoMarshal.ProviderFields(c)
  {
    SameText(c.supabaseOrganizationID);
    SameText(c.gcpOrganizationID);
    SameList(c.projectsListed);
    SameList(c.projectsScanned);
    SameList(c.gcpProjectsListed);
    SameList(c.gcpProjectsScanned);
    SameList(c.azureManagementGroups);
    SameList(c.azureSubscriptionsListed);
    SameList(c.azureSubscriptionsScanned);
  }

  lemma SameClaimFields(c: AttestedContent, number: int -> int)
    requires Delivered(c, number).Some? && c.checks.Some?
    ensures HashTs.ClaimFields(Delivered(c, number).value) == GoMarshal.ClaimFields(c)
      <==> HashTs.ChecksObject(Delivered(c, number).value.checks.value) == GoMarshal.ChecksObject(c.checks)
  {
    var fs, gs := HashTs.ClaimFields(Delivered(c, number).value), GoMarshal.ClaimFields(c);
    assert fs[..8] == gs[..8];
    assert fs == gs <==> fs[8] == gs[8];
  }

  lemma SameContent(c: AttestedContent, number: int -> int)
    requires ExactOnSafeIntegers(number) && SafeCounts(c)
    requires Delivered(c, number).Some? && c.checks.Some?
    ensures HashTs.ContentObject(Delivered(c, number).value) == Some(GoMarshal.ContentObject(c))
      <==> KeyOrdersAgree(c.checks.value)
  {
    var r := Delivered(c, number).value;
    SameAwsFields(c, number);
    SameProviderFields(c, number);
    SameClaimFields(c, number);
    assert CheckMap(c.checks) == c.checks.value;
    SameChecks(c.checks.value, number);
    PrefixCancels(GoMarshal.AwsFields(c) + GoMarshal.ProviderFields(c), HashTs.ClaimFields(r), GoMarshal.ClaimFields(c));
    HashTs.ContentNames(r);
    HashTs.FieldNamesDistinct();
    SameNames(c, r);
    ObjectsEqual(HashTs.ContentFields(r), GoMarshal.ContentFields(c), HashTs.FIELD_NAMES);
  }

  lemma PrefixCancels(a: seq<Field>, b: seq<Field>, c: seq<Field>)
    ensures a + b == a + c <==> b == c
  {
    assert (a + b)[|a|..] == b && (a + c)[|a|..] == c;
  }

  lemma SameNames(c: AttestedContent, r: HashTs.Response)
    requires r.checks.Some?
    ensures Names(GoMarshal.ContentFields(c)) == Names(HashTs.ContentFields(r))
  {
    assert Names(GoMarshal.AwsFields(c)) == Names(HashTs.AwsFields(r));
    assert Names(GoMarshal.ProviderFields(c)) == Names(HashTs.ProviderFields(r));
    assert Names(GoMarshal.ClaimFields(c)) == Names(HashTs.ClaimFields(r));
    HashTs.NamesConcat(GoMarshal.AwsFields(c), GoMarshal.ProviderFields(c));
    HashTs.NamesConcat(GoMarshal.AwsFields(c) + GoMarshal.ProviderFields(c), GoMarshal.ClaimFields(c));
    HashTs.NamesConcat(HashTs.AwsFields(r), HashTs.ProviderFields(r));
    HashTs.NamesConcat(HashTs.AwsFields(r) + HashTs.ProviderFields(r), HashTs.ClaimFields(r));
  }

  /** When the browser re-derives the sealed text: there is a checks map, its keys and those of
      every accounts map come out in the same order, and no string holds U+0008 or U+000C. */
  ghost predicate Reproducible(c: AttestedContent) {
    && c.checks.Some?
    && KeyOrdersAgree(c.checks.value)
    && CleanContent(c)
  }

  /** A report whose check IDs, account IDs and project IDs are plain keys and whose strings hold
      neither control character is Reproducible. */
  lemma PlainReportReproducible(c: AttestedContent)
    requires c.checks.Some? && CleanContent(c)
    requires forall k | k in c.checks.value :: PlainKey(k) && forall a | a in AccountMap(c.checks.value[k]) :: PlainKey(a)
    ensures Reproducible(c)
  {
    PlainKeysAgree(c.checks.value.Keys);
    forall k | k in c.checks.value ensures KeysAgree(AccountMap(c.checks.value[k]).Keys) {
      PlainKeysAgree(AccountMap(c.checks.value[k]).Keys);
    }
  }

  /** EXACT: for a stored report the browser's canonical text is the text that was sealed
      if and only if the report is Reproducible. */
  lemma SameBytesIffReproducible(c: AttestedContent, number: int -> int)
    requires ExactOnSafeIntegers(number) && SafeCounts(c) && Delivered(c, number).Some?
    ensures HashTs.CanonicalText(Delivered(c, number).value) == Some(GoMarshal.Marshal(c)) <==> Reproducible(c)
  {
    var r := Delivered(c, number).value;
    if c.checks.Some? {
      SameContent(c, number);
      var o, g := HashTs.ContentObject(r).value, GoMarshal.ContentObject(c);
      PrintersAgree(g);
      ContentClean(c);
      if Print(o, Browser) == Print(g, GoEncoder) { PrintInjective(o, Browser, g, GoEncoder); }
    }
  }

  // ---- reports the browser cannot verify ----

  const PASSED := CheckResult(STATUS_PASS, None, 1, "", None)

  /** A small report whose scope the validator accepts and which every database takes. */
  function Small(warning: string, checks: map<string, CheckOutput>): AttestedContent {
    Fields("1.0", false, "", false, warning, Some([]), Some(["111122223333"]), "", None, None, "", None, None, None, None, None,
           "111122223333", true, "", true, "", Some(["us-east-1"]), Some(["us-east-1"]), "", Some(checks))
  }

  /** One check with the same passing result in every account. */
  function OneCheck(accounts: set<string>): map<string, CheckOutput> {
    map["aws.s3.public" := CheckOutput("Public buckets", "1", PASSED, Some(map a | a in accounts :: PASSED))]
  }

  lemma SmallStored(warning: string, checks: map<string, CheckOutput>, number: int -> int)
    requires warning != ""
    ensures ScopeAccepted(Small(warning, checks)) && Delivered(Small(warning, checks), number).Some?
    ensures Storable(Migrated, ToNewVerdict(Small(warning, checks)))
  {
  }

  lemma IrreproducibleBy(c: AttestedContent, id: string)
    requires id in CheckMap(c.checks) && !KeysAgree(AccountMap(CheckMap(c.checks)[id]).Keys)
    ensures !Reproducible(c)
  {
  }

  lemma IndexAccountsIrreproducible(c: AttestedContent)
    requires c.checks == Some(OneCheck({"9", "10"}))
    ensures !Reproducible(c)
  {
    var output := c.checks.value["aws.s3.public"];
    assert AccountMap(output).Keys == {"9", "10"};
    IndexKeysDisagree(AccountMap(output).Keys);
    IrreproducibleBy(c, "aws.s3.public");
  }

  lemma OneCheckSafe(c: AttestedContent, accounts: set<string>)
    requires c.checks == Some(OneCheck(accounts))
    ensures SafeCounts(c)
  {
  }

  /** Accounts named 9 and 10: accepted and stored, but the browser lists 9 first and Go lists 10 first. */
  lemma IndexAccountsFail(number: int -> int)
    requires ExactOnSafeIntegers(number)
    ensures
      var c := Small("no organization", OneCheck({"9", "10"}));
      && ScopeAccepted(c) && Storable(Migrated, ToNewVerdict(c))
      && Delivered(c, number).Some? && HashTs.CanonicalText(Delivered(c, number).value) != Some(GoMarshal.Marshal(c))
  {
    var checks := OneCheck({"9", "10"});
    SmallStored("no organization", checks, number);
    IndexAccountsIrreproducible(Small("no organization", checks));
    OneCheckSafe(Small("no organization", checks), {"9", "10"});
    SameBytesIffReproducible(Small("no organization", checks), number);
  }

  /** U+0008 in a warning: Go writes it in two characters, the browser in six. */
  lemma BackspaceFails(number: int -> int)
    requires ExactOnSafeIntegers(number)
    ensures
      var c := Small([0x08 as char], map[]);
      && ScopeAccepted(c) && Storable(Migrated, ToNewVerdict(c))
      && Delivered(c, number).Some? && HashTs.CanonicalText(Delivered(c, number).value) != Some(GoMarshal.Marshal(c))
  {
    var c := Small([0x08 as char], map[]);
    assert ShortInGoOnly(c.organizationWarning[0]);
    SameBytesIffReproducible(c, number);
  }

  // ---- acceptance and the browser's check ----

  function HexByte(b: int): string
    requires 0 <= b < 256
  {
    [HexDigit(b / 16), HexDigit(b % 16)]
  }

  type Byte = b: int | 0 <= b < 256

  /** hex.EncodeToString and bytesToHex. */
  function Hex(bytes: seq<Byte>): string {
    if bytes == [] then "" else HexByte(bytes[0]) + Hex(bytes[1..])
  }

  function LowerAscii(c: char): char { if 'A' <= c <= 'Z' then c - 'A' + 'a' else c }

  function ToLower(s: string): string {
    seq(|s|, i requires 0 <= i < |s| => LowerAscii(s[i]))
  }

  lemma {:induction false} HexIsLower(bytes: seq<Byte>)
    ensures ToLower(Hex(bytes)) == Hex(bytes)
  {
    if bytes != [] {
      HexIsLower(bytes[1..]);
      var h := HexByte(bytes[0]);
      assert ToLower(h + Hex(bytes[1..])) == ToLower(h) + ToLower(Hex(bytes[1..]));
      assert LowerAscii(h[0]) == h[0] && LowerAscii(h[1]) == h[1];
      assert ToLower(h) == h;
    }
  }

  lemma {:induction false} HexInjective(a: seq<Byte>, b: seq<Byte>)
    requires Hex(a) == Hex(b)
    ensures a == b
  {
    if a != [] && b != [] {
      assert Hex(a)[0] == Hex(b)[0] && Hex(a)[1] == Hex(b)[1];
      HexValueOf(a[0] / 16); HexValueOf(b[0] / 16); HexValueOf(a[0] % 16); HexValueOf(b[0] % 16);
      assert a[0] == a[0] / 16 * 16 + a[0] % 16 && b[0] == b[0] / 16 * 16 + b[0] % 16;
      assert Hex(a)[2..] == Hex(a[1..]) && Hex(b)[2..] == Hex(b[1..]);
      HexInjective(a[1..], b[1..]);
      assert a == [a[0]] + a[1..] && b == [b[0]] + b[1..];
    }
  }

  predicate SameLetter(c: char, d: char) { c == d || ('a' <= d <= 'z' && c == d - 'a' + 'A') }

  /** Hex digits in any case are lowered to those Hex writes. */
  lemma HexAnyCase(bytes: seq<Byte>, s: string)
    requires |s| == |Hex(bytes)| && forall i | 0 <= i < |s| :: SameLetter(s[i], Hex(bytes)[i])
    ensures ToLower(s) == Hex(bytes)
  {
    HexIsLower(bytes);
    forall i | 0 <= i < |s| ensures LowerAscii(s[i]) == Hex(bytes)[i] {
      assert SameLetter(s[i], Hex(bytes)[i]) && ToLower(Hex(bytes))[i] == Hex(bytes)[i];
    }
  }

  /** requiredFieldsMissing: the first required field that is missing, or "". */
  function RequiredFieldMissing(s: Submission): string {
    if s.scanID == "" then "scan_id"
    else if s.content.scannerVersion == "" then "scanner_version"
    else if s.content.accountID == "" then "account_id"
    else if s.resultsHash == "" then "results_sha384"
    else if s.attestation.None? then "attestation"
    else if s.attestation.value.doc == "" then "attestation.cose_sign1_base64"
    else if s.attestation.value.format == "" then "attestation.format"
    else ""
  }

  /** What the ledger says to a row. */
  datatype StoreOutcome = Inserted | DuplicateScan | StoreFailed

  /** 400, 422, 409, 500 and 201. */
  datatype Response =
    | BadRequest
    | Unprocessable
    | Conflict
    | Failed
    | Created(row: Row)

  /** hashAttestedContent. */
  method HashAttestedContent(c: AttestedContent, sha: string -> seq<Byte>) returns (h: string)
    ensures h == Hex(sha(GoMarshal.Marshal(c)))
  {
    var text := GoMarshal.MarshalContent(c);
    h := Hex(sha(text));
  }

  /** The answer to a body; None is one that does not decode. A content the database cannot hold is never
      inserted. */
  ghost predicate IsResponse(body: Option<Submission>, sha: string -> seq<Byte>, decode: string -> Option<seq<Byte>>,
                             verify: seq<Byte> -> Option<seq<Byte>>, store: Row -> StoreOutcome, schema: Schema, r: Response)
  {
    && (r.BadRequest? <==> body.None? || Malformed(body.value, decode))
    && (r.Created? <==> Outcome(body, sha, decode, verify, store, schema, Inserted))
    && (r.Created? ==> r.row == Stored(schema, ToNewVerdict(body.value.content)).value)
    && (r.Conflict? <==> Outcome(body, sha, decode, verify, store, schema, DuplicateScan))
    && (r.Failed? <==> Unheld(body, sha, decode, verify, schema) || Outcome(body, sha, decode, verify, store, schema, StoreFailed))
    && (r.Unprocessable? <==> body.Some? && !Malformed(body.value, decode) && !Accepted(body.value, sha, decode, verify))
  }

  /** The submission was accepted, but the database cannot hold its content. */
  ghost predicate Unheld(body: Option<Submission>, sha: string -> seq<Byte>, decode: string -> Option<seq<Byte>>,
                         verify: seq<Byte> -> Option<seq<Byte>>, schema: Schema)
  {
    body.Some? && Accepted(body.value, sha, decode, verify) && Stored(schema, ToNewVerdict(body.value.content)).None?
  }

  /** A required field is missing, or a document that would be read is no base64. */
  ghost predicate Malformed(sub: Submission, decode: string -> Option<seq<Byte>>) {
    || RequiredFieldMissing(sub) != ""
    || (sub.content.scopeVerified && ScopeAccepted(sub.content) && decode(sub.attestation.value.doc).None?)
  }

  /** The submission was accepted and its row met that outcome. */
  ghost predicate Outcome(body: Option<Submission>, sha: string -> seq<Byte>, decode: string -> Option<seq<Byte>>,
                          verify: seq<Byte> -> Option<seq<Byte>>, store: Row -> StoreOutcome, schema: Schema, o: StoreOutcome)
  {
    && body.Some? && Accepted(body.value, sha, decode, verify)
    && var row := Stored(schema, ToNewVerdict(body.value.content));
       row.Some? && store(row.value) == o
  }

  /** handleCreateVerdict. decode is base64 decoding; verify is the signature and chain check,
      which yields the document's user_data. */
  method HandleCreateVerdict(body: Option<Submission>, sha: string -> seq<Byte>, decode: string -> Option<seq<Byte>>,
                             verify: seq<Byte> -> Option<seq<Byte>>, store: Row -> StoreOutcome, schema: Schema)
    returns (r: Response)
    ensures IsResponse(body, sha, decode, verify, store, schema, r)
  {
    if body.None? { return BadRequest; }
    var sub := body.value;
    if RequiredFieldMissing(sub) != "" { return BadRequest; }
    if !sub.content.scopeVerified { return Unprocessable; }
    var scopeErr := ValidateOrganizationScope(sub.content);
    if scopeErr != "" { return Unprocessable; }
    var doc := decode(sub.attestation.value.doc);
    if doc.None? { return BadRequest; }
    var recomputedHash := HashAttestedContent(sub.content, sha);
    if recomputedHash != sub.resultsHash { return Unprocessable; }
    var outcome := verify(doc.value);
    if outcome.None? { return Unprocessable; }
    if Hex(outcome.value) != sub.resultsHash { return Unprocessable; }
    var row := Stored(schema, ToNewVerdict(sub.content));
    if row.None? { return Failed; }
    match store(row.value)
    case Inserted => r := Created(row.value);
    case DuplicateScan => r := Conflict;
    case StoreFailed => r := Failed;
  }

  /** STORED: of the reports the validator accepts, every database takes those with region lists and a verified
      organization; of the others with region lists an upgraded one takes all, a new one those whose account
      list is not nil. */
  lemma AcceptedStored(c: AttestedContent, schema: Schema)
    requires ScopeAccepted(c)
    ensures Stored(schema, ToNewVerdict(c)).Some? <==>
      && c.requestedRegions.Some? && c.scannedRegions.Some?
      && (schema.Migrated? && !c.organizationVerified ==> c.accountsListed.Some?)
  {
    assert c.accountsScanned.Some?;
    if c.organizationVerified { assert c.accountsListed.Some?; }
  }

  /** Every condition of acceptance. */
  ghost predicate Accepted(sub: Submission, sha: string -> seq<Byte>,
                           decode: string -> Option<seq<Byte>>, verify: seq<Byte> -> Option<seq<Byte>>) {
    && RequiredFieldMissing(sub) == ""
    && sub.content.scopeVerified
    && ScopeAccepted(sub.content)
    && sub.resultsHash == Hex(sha(GoMarshal.Marshal(sub.content)))
    && var doc := decode(sub.attestation.value.doc);
       doc.Some? && verify(doc.value).Some? && Hex(verify(doc.value).value) == sub.resultsHash
  }

  /** What is created is accepted, and is what the browser gets later. */
  lemma CreatedDelivered(body: Option<Submission>, sha: string -> seq<Byte>, decode: string -> Option<seq<Byte>>,
                         verify: seq<Byte> -> Option<seq<Byte>>, store: Row -> StoreOutcome, schema: Schema, r: Response,
                         number: int -> int)
    requires IsResponse(body, sha, decode, verify, store, schema, r) && r.Created?
    ensures body.Some? && Accepted(body.value, sha, decode, verify)
    ensures Delivered(body.value.content, number) == Some(Received(VerdictToView(r.row), number))
  {
    SameRow(ToNewVerdict(body.value.content), schema);
  }

  predicate Complete(s: Submission) {
    && s.scanID != "" && s.content.scannerVersion != "" && s.content.accountID != "" && s.resultsHash != ""
    && s.attestation.Some? && s.attestation.value.doc != "" && s.attestation.value.format != ""
  }

  /** The sealed document decodes and verifies, and the claimed hash is the sealed one and that of the content. */
  ghost predicate OneHash(s: Submission, sha: string -> seq<Byte>, decode: string -> Option<seq<Byte>>,
                          verify: seq<Byte> -> Option<seq<Byte>>)
    requires s.attestation.Some?
  {
    && s.resultsHash == Hex(sha(GoMarshal.Marshal(s.content)))
    && decode(s.attestation.value.doc).Some? && verify(decode(s.attestation.value.doc).value).Some?
    && s.resultsHash == Hex(verify(decode(s.attestation.value.doc).value).value)
  }

  predicate ListsGiven(c: AttestedContent, schema: Schema) {
    c.requestedRegions.Some? && c.scannedRegions.Some? && (schema.Migrated? && !c.organizationVerified ==> c.accountsListed.Some?)
  }

  /** WHAT IS CREATED, and what is a bad request: a row is created if and only if the required fields are there, the
      scope is confirmed and accepted, claimed hash, sealed hash and the hash of the content are one, the lists the
      database wants are given, and it takes the row. */
  lemma CreatedMeans(body: Option<Submission>, sha: string -> seq<Byte>, decode: string -> Option<seq<Byte>>,
                     verify: seq<Byte> -> Option<seq<Byte>>, store: Row -> StoreOutcome, schema: Schema, r: Response)
    requires IsResponse(body, sha, decode, verify, store, schema, r)
    ensures r.Created? <==>
      && body.Some? && Complete(body.value) && body.value.content.scopeVerified && ScopeAccepted(body.value.content)
      && OneHash(body.value, sha, decode, verify) && ListsGiven(body.value.content, schema)
      && store(Stored(schema, ToNewVerdict(body.value.content)).value) == Inserted
    ensures r.Created? && body.value.content.organizationVerified ==> forall a | a in r.row.accountsScanned :: a in r.row.accountsListed
    ensures r.BadRequest? <==>
      || body.None? || !Complete(body.value)
      || (body.value.content.scopeVerified && ScopeAccepted(body.value.content) && decode(body.value.attestation.value.doc).None?)
  {
    if body.Some? {
      CompleteIff(body.value);
      if ScopeAccepted(body.value.content) {
        AcceptedStored(body.value.content, schema);
        AcceptedMeans(body.value.content);
      }
    }
  }

  lemma CompleteIff(s: Submission)
    ensures Complete(s) <==> RequiredFieldMissing(s) == ""
  {
  }

  datatype HashCheck = Verified | NoUserData | UserDataMismatch | FieldMismatch | Threw

  /** checkResultsHash. */
  ghost function CheckResultsHash(resp: HashTs.Response, resultsField: string, userData: Option<seq<Byte>>,
                                  sha: string -> seq<Byte>): HashCheck {
    if userData.None? || userData.value == [] then NoUserData
    else
      var canonical := HashTs.CanonicalText(resp);
      if canonical.None? then Threw
      else
        var computed := Hex(sha(canonical.value));
        if computed != Hex(userData.value) then UserDataMismatch
        else if ToLower(resultsField) != computed then FieldMismatch
        else Verified
  }

  /** END TO END: for every accepted and stored report, the buyer's browser verifies the hash
      exactly when the report is Reproducible, unless SHA-384 collides on the two texts. */
  lemma BrowserVerifiesAcceptedReport(sub: Submission, sha: string -> seq<Byte>, number: int -> int,
                                      decode: string -> Option<seq<Byte>>, verify: seq<Byte> -> Option<seq<Byte>>)
    requires Accepted(sub, sha, decode, verify) && Delivered(sub.content, number).Some?
    requires ExactOnSafeIntegers(number) && SafeCounts(sub.content)
    ensures
      var resp := Delivered(sub.content, number).value;
      var userData := verify(decode(sub.attestation.value.doc).value);
      var sealed := GoMarshal.Marshal(sub.content);
      && (Reproducible(sub.content) ==> CheckResultsHash(resp, sub.resultsHash, userData, sha) == Verified)
      && (CheckResultsHash(resp, sub.resultsHash, userData, sha) == Verified ==>
            || Reproducible(sub.content)
            || (HashTs.CanonicalText(resp).Some? && HashTs.CanonicalText(resp).value != sealed
                && sha(HashTs.CanonicalText(resp).value) == sha(sealed)))
  {
    var resp := Delivered(sub.content, number).value;
    var userData := verify(decode(sub.attestation.value.doc).value).value;
    SameBytesIffReproducible(sub.content, number);
    HexIsLower(sha(GoMarshal.Marshal(sub.content)));
    assert userData != [];
    if HashTs.CanonicalText(resp).Some? {
      var text := HashTs.CanonicalText(resp).value;
      if Hex(sha(text)) == Hex(userData) { HexInjective(sha(text), userData); }
      HexInjective(sha(GoMarshal.Marshal(sub.content)), userData);
    }
  }
}
