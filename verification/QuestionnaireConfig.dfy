/** internal/questionnaire/config.go: mapping files, their validation and account overrides. */
module QuestionnaireConfig {
  import opened Wrappers
  import opened Sorting
  import opened Report

  type Groups = seq<seq<string>>

  datatype Mapping = Mapping(
    checkID: string, caiqIDs: seq<string>, soc2IDs: seq<string>, isoIDs: seq<string>, keywordGroups: Groups,
    verifiedStatement: string, notInUseStatement: string)

  datatype MappingOverride = MappingOverride(
    disabled: Option<bool>, caiqIDs: Strings, soc2IDs: Strings, isoIDs: Strings, keywordGroups: Option<Groups>,
    verifiedStatement: string, notInUseStatement: string)

  datatype EvidenceGap = EvidenceGap(keywordGroups: Groups, reason: string)

  datatype Config = Config(
    schemaVersion: int,
    minutesPerAnswer: int,
    minutesPerFlag: int,
    restrictedTopics: map<string, seq<string>>,
    technicalPhrases: seq<string>,
    evidenceGaps: seq<EvidenceGap>,
    mappings: seq<Mapping>,
    accountOverrides: map<string, map<string, MappingOverride>>)

  // ---- validation ----

  const REQUIRED_TOPICS := ["policy", "human_resources", "governance", "physical_security"]

  predicate MappingValid(m: Mapping) {
    && m.checkID != "" && m.verifiedStatement != "" && m.keywordGroups != []
    && (m.caiqIDs != [] || m.soc2IDs != [] || m.isoIDs != [])
  }

  predicate GapValid(g: EvidenceGap) { g.keywordGroups != [] && g.reason != "" }

  predicate DistinctChecks(ms: seq<Mapping>) {
    forall i, j | 0 <= i < j < |ms| :: ms[i].checkID != ms[j].checkID
  }

  predicate TopicPresent(c: Config, topic: string) {
    topic in c.restrictedTopics && c.restrictedTopics[topic] != []
  }

  predicate Valid(c: Config) {
    && c.schemaVersion == 1 && c.minutesPerAnswer > 0 && c.minutesPerFlag > 0
    && (forall t | t in REQUIRED_TOPICS :: TopicPresent(c, t))
    && (forall g | g in c.evidenceGaps :: GapValid(g))
    && (forall m | m in c.mappings :: MappingValid(m))
    && DistinctChecks(c.mappings)
  }

  /** LoadConfig refuses every file for which this is false. */
  method Validate(c: Config) returns (ok: bool)
    ensures ok <==> Valid(c)
  {
    if c.schemaVersion != 1 { return false; }
    if c.minutesPerAnswer <= 0 || c.minutesPerFlag <= 0 { return false; }
    for i := 0 to |REQUIRED_TOPICS|
      invariant forall j | 0 <= j < i :: TopicPresent(c, REQUIRED_TOPICS[j])
    {
      if !TopicPresent(c, REQUIRED_TOPICS[i]) { return false; }
    }
    for i := 0 to |c.evidenceGaps|
      invariant forall j | 0 <= j < i :: GapValid(c.evidenceGaps[j])
    {
      var gap := c.evidenceGaps[i];
      assert gap in c.evidenceGaps;
      if |gap.keywordGroups| == 0 || gap.reason == "" { return false; }
    }
    var seen: set<string> := {};
    for i := 0 to |c.mappings|
      invariant forall j | 0 <= j < i :: MappingValid(c.mappings[j])
      invariant DistinctChecks(c.mappings[..i])
      invariant seen == set j | 0 <= j < i :: c.mappings[j].checkID
    {
      var m := c.mappings[i];
      assert m in c.mappings;
      if m.checkID == "" || m.verifiedStatement == "" { return false; }
      if m.checkID in seen { return false; }
      if |m.caiqIDs| + |m.soc2IDs| + |m.isoIDs| == 0 || |m.keywordGroups| == 0 { return false; }
      seen := seen + {m.checkID};
    }
    return true;
  }

  predicate UsableMapping(m: Mapping) {
    && m.checkID != "" && m.verifiedStatement != "" && |m.keywordGroups| > 0
    && |m.caiqIDs| + |m.soc2IDs| + |m.isoIDs| > 0
  }

  /** A VALID FILE: version 1, positive minutes for both estimates, phrases for the four topics that are always
      restricted, a reason and keywords for every gap, and mappings that can match and answer, one a check. */
  lemma ValidMeans(c: Config)
    ensures Valid(c) <==>
      && c.schemaVersion == 1 && 0 < c.minutesPerAnswer && 0 < c.minutesPerFlag
      && {"policy", "human_resources", "governance", "physical_security"} <= c.restrictedTopics.Keys
      && c.restrictedTopics["policy"] != [] && c.restrictedTopics["human_resources"] != []
      && c.restrictedTopics["governance"] != [] && c.restrictedTopics["physical_security"] != []
      && (forall i | 0 <= i < |c.evidenceGaps| :: |c.evidenceGaps[i].keywordGroups| > 0 && c.evidenceGaps[i].reason != "")
      && (forall i | 0 <= i < |c.mappings| :: UsableMapping(c.mappings[i]))
      && (forall i, j | 0 <= i < j < |c.mappings| :: c.mappings[i].checkID != c.mappings[j].checkID)
  {
    var ts := REQUIRED_TOPICS;
    assert ts[0] in ts && ts[1] in ts && ts[2] in ts && ts[3] in ts;
    assert forall i | 0 <= i < |c.evidenceGaps| :: c.evidenceGaps[i] in c.evidenceGaps;
    assert forall i | 0 <= i < |c.mappings| :: c.mappings[i] in c.mappings;
  }

  // ---- account overrides ----

  function Overridden(base: Mapping, o: MappingOverride): Mapping {
    Mapping(
      base.checkID, o.caiqIDs.GetOr(base.caiqIDs), o.soc2IDs.GetOr(base.soc2IDs), o.isoIDs.GetOr(base.isoIDs),
      o.keywordGroups.GetOr(base.keywordGroups),
      if o.verifiedStatement != "" then o.verifiedStatement else base.verifiedStatement,
      if o.notInUseStatement != "" then o.notInUseStatement else base.notInUseStatement)
  }

  function OverridesOf(c: Config, accountID: string): map<string, MappingOverride> {
    if accountID in c.accountOverrides then c.accountOverrides[accountID] else map[]
  }

  predicate Enabled(base: Mapping, overrides: map<string, MappingOverride>) {
    base.checkID in overrides ==> overrides[base.checkID].disabled != Some(true)
  }

  function Effective(base: Mapping, overrides: map<string, MappingOverride>): Mapping {
    if base.checkID in overrides then Overridden(base, overrides[base.checkID]) else base
  }

  function EffectiveMappings(ms: seq<Mapping>, overrides: map<string, MappingOverride>): seq<Mapping> {
    if ms == [] then []
    else
      var n := |ms| - 1;
      var rest := EffectiveMappings(ms[..n], overrides);
      if Enabled(ms[n], overrides) then rest + [Effective(ms[n], overrides)] else rest
  }

  predicate MappingLess(a: Mapping, b: Mapping) { GoLess(a.checkID, b.checkID) }

  lemma MappingWeakOrder()
    ensures WeakOrder(MappingLess)
  {
    GoLessWeakOrder();
    forall x, y | MappingLess(x, y) ensures !MappingLess(y, x) {
      assert GoLess(x.checkID, y.checkID);
    }
    forall x, y, z | !MappingLess(x, y) && !MappingLess(y, z) ensures !MappingLess(x, z) {
      assert !GoLess(x.checkID, y.checkID) && !GoLess(y.checkID, z.checkID);
    }
  }

  /** What the account's mapping list may be: sort.Slice need not be stable. */
  ghost predicate IsMappingList(c: Config, accountID: string, r: seq<Mapping>) {
    SortedPermutation(MappingLess, EffectiveMappings(c.mappings, OverridesOf(c, accountID)), r)
  }

  method MappingsForAccount(c: Config, accountID: string) returns (r: seq<Mapping>)
    ensures IsMappingList(c, accountID, r)
  {
    var overrides := OverridesOf(c, accountID);
    var out: seq<Mapping> := [];
    for i := 0 to |c.mappings|
      invariant out == EffectiveMappings(c.mappings[..i], overrides)
    {
      var base := c.mappings[i];
      assert c.mappings[..i + 1][..i] == c.mappings[..i];
      if base.checkID in overrides {
        var override := overrides[base.checkID];
        if override.disabled == Some(true) { continue; }
        if override.caiqIDs.Some? { base := base.(caiqIDs := override.caiqIDs.value); }
        if override.soc2IDs.Some? { base := base.(soc2IDs := override.soc2IDs.value); }
        if override.isoIDs.Some? { base := base.(isoIDs := override.isoIDs.value); }
        if override.keywordGroups.Some? { base := base.(keywordGroups := override.keywordGroups.value); }
        if override.verifiedStatement != "" { base := base.(verifiedStatement := override.verifiedStatement); }
        if override.notInUseStatement != "" { base := base.(notInUseStatement := override.notInUseStatement); }
      }
      out := out + [base];
    }
    assert c.mappings[..|c.mappings|] == c.mappings;
    MappingWeakOrder();
    r := Sort(MappingLess, out);
  }

  lemma {:induction false} EffectiveMember(ms: seq<Mapping>, overrides: map<string, MappingOverride>, m: Mapping)
    ensures m in EffectiveMappings(ms, overrides)
            <==> exists base :: base in ms && Enabled(base, overrides) && m == Effective(base, overrides)
  {
    if ms != [] {
      var n := |ms| - 1;
      EffectiveMember(ms[..n], overrides, m);
      assert ms == ms[..n] + [ms[n]];
      assert ms[n] in ms;
    }
  }

  /** The account has an override for the mapping. */
  predicate HasOverride(c: Config, accountID: string, base: Mapping) {
    accountID in c.accountOverrides && base.checkID in c.accountOverrides[accountID]
  }

  /** m is what an override leaves of base: lists and statements it does not give stay. */
  predicate Replaces(o: MappingOverride, base: Mapping, m: Mapping) {
    && m.checkID == base.checkID
    && (o.caiqIDs == Some(m.caiqIDs) || (o.caiqIDs.None? && m.caiqIDs == base.caiqIDs))
    && (o.soc2IDs == Some(m.soc2IDs) || (o.soc2IDs.None? && m.soc2IDs == base.soc2IDs))
    && (o.isoIDs == Some(m.isoIDs) || (o.isoIDs.None? && m.isoIDs == base.isoIDs))
    && (o.keywordGroups == Some(m.keywordGroups) || (o.keywordGroups.None? && m.keywordGroups == base.keywordGroups))
    && (m.verifiedStatement == o.verifiedStatement != "" || (o.verifiedStatement == "" && m.verifiedStatement == base.verifiedStatement))
    && (m.notInUseStatement == o.notInUseStatement != "" || (o.notInUseStatement == "" && m.notInUseStatement == base.notInUseStatement))
  }

  /** base applies to the account, as m. */
  predicate Applies(c: Config, accountID: string, base: Mapping, m: Mapping) {
    if HasOverride(c, accountID, base) then
      var o := c.accountOverrides[accountID][base.checkID];
      o.disabled != Some(true) && Replaces(o, base, m)
    else m == base
  }

  lemma AppliesIff(c: Config, accountID: string, base: Mapping, m: Mapping)
    ensures Applies(c, accountID, base, m)
            <==> Enabled(base, OverridesOf(c, accountID)) && m == Effective(base, OverridesOf(c, accountID))
  {
  }

  /** The list holds exactly the mappings that apply, as their overrides leave them; the checks and the
      statements stay nonempty. */
  lemma MappingListMembers(c: Config, accountID: string, r: seq<Mapping>, m: Mapping)
    requires IsMappingList(c, accountID, r)
    ensures m in r <==> exists base :: base in c.mappings && Applies(c, accountID, base, m)
    ensures Valid(c) && m in r ==> m.checkID != "" && m.verifiedStatement != ""
  {
    var overrides := OverridesOf(c, accountID);
    EffectiveMember(c.mappings, overrides, m);
    assert m in multiset(r) <==> m in multiset(EffectiveMappings(c.mappings, overrides));
    forall base ensures Applies(c, accountID, base, m) <==> Enabled(base, overrides) && m == Effective(base, overrides) {
      AppliesIff(c, accountID, base, m);
    }
  }

  lemma {:induction false} EffectiveDistinct(ms: seq<Mapping>, overrides: map<string, MappingOverride>)
    requires DistinctChecks(ms)
    ensures DistinctChecks(EffectiveMappings(ms, overrides))
  {
    if ms != [] {
      var n := |ms| - 1;
      EffectiveDistinct(ms[..n], overrides);
      forall m | m in EffectiveMappings(ms[..n], overrides) ensures m.checkID != ms[n].checkID {
        EffectiveMember(ms[..n], overrides, m);
      }
    }
  }

  lemma DistinctChecksTotal(ms: seq<Mapping>)
    requires DistinctChecks(ms)
    ensures TotalOn(MappingLess, Elems(ms)) && NoDuplicates(ms)
  {
    GoLessTotal(set m | m in ms :: m.checkID);
    forall x, y | x in Elems(ms) && y in Elems(ms) && x != y ensures x.checkID != y.checkID {
      var i :| 0 <= i < |ms| && ms[i] == x;
      var j :| 0 <= j < |ms| && ms[j] == y;
    }
  }

  /** Distinct check IDs make the list a function of the file and the account, and keep them distinct. */
  lemma MappingListUnique(c: Config, accountID: string, r: seq<Mapping>)
    requires DistinctChecks(c.mappings) && IsMappingList(c, accountID, r)
    ensures r == MappingList(c, accountID)
  {
    var ms := EffectiveMappings(c.mappings, OverridesOf(c, accountID));
    EffectiveDistinct(c.mappings, OverridesOf(c, accountID));
    DistinctChecksTotal(ms);
    SortedPermutationIsArrange(MappingLess, ms, r);
  }

  ghost function MappingList(c: Config, accountID: string): (r: seq<Mapping>)
    requires DistinctChecks(c.mappings)
    ensures DistinctChecks(r)
  {
    var ms := EffectiveMappings(c.mappings, OverridesOf(c, accountID));
    EffectiveDistinct(c.mappings, OverridesOf(c, accountID));
    DistinctChecksTotal(ms);
    var r := Arrange(MappingLess, Elems(ms));
    AscendingChecks(r);
    r
  }

  lemma AscendingChecks(r: seq<Mapping>)
    requires Ascending(MappingLess, r)
    ensures DistinctChecks(r)
  {
    GoLessWeakOrder();
    forall i, j | 0 <= i < j < |r| ensures r[i].checkID != r[j].checkID {
      assert MappingLess(r[i], r[j]);
    }
  }
}
