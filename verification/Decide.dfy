/** internal/questionnaire/matcher.go: the answer a question gets. The date comes formatted, and so
    do the phrases the quoting verb of fmt prints. */
module Decide {
  import opened Sorting
  import opened Report
  import opened Text
  import opened QuestionnaireConfig
  import opened Matcher
  import GoJson

  datatype Outcome = Answered | Partial | Flagged | NeedsHuman

  datatype MatchMethod = MatchExact | MatchKeyword | MatchRestricted | MatchUnmatched

  datatype Decision = Decision(
    outcome: Outcome, matchMethod: MatchMethod, controlID: string, checkIDs: seq<string>, answer: string,
    evidenceURL: string, reason: string, restrictedAs: string, confidence: string)

  datatype Query = Query(
    accountID: string, controlID: string, question: string, evidenceURL: string, date: string, coverage: string,
    checks: map<string, CheckOutput>)

  datatype Engine = Engine(config: Config, text: Alphabet, quoted: map<string, string>)

  function Quoted(e: Engine, phrase: string): string { if phrase in e.quoted then e.quoted[phrase] else phrase }

  // ---- lists of text ----

  /** First occurrences of the trimmed, nonempty items. */
  function Unique(a: Alphabet, items: seq<string>): (r: seq<string>)
    ensures forall t :: t in r <==> t != "" && exists s :: s in items && Trim(a, s) == t
    ensures forall i, j | 0 <= i < j < |r| :: r[i] != r[j]
  {
    if items == [] then []
    else
      var n := |items| - 1;
      assert items == items[..n] + [items[n]];
      var rest := Unique(a, items[..n]);
      var t := Trim(a, items[n]);
      if t != "" && t !in rest then rest + [t] else rest
  }

  method UniqueStrings(a: Alphabet, items: seq<string>) returns (out: seq<string>)
    ensures out == Unique(a, items)
  {
    var seen: set<string> := {};
    out := [];
    for i := 0 to |items|
      invariant out == Unique(a, items[..i]) && seen == Elems(out)
    {
      assert items[..i + 1][..i] == items[..i];
      var item := Trim(a, items[i]);
      if item != "" && item !in seen {
        SnocElems(out, item);
        seen := seen + {item};
        out := out + [item];
      }
    }
    assert items[..|items|] == items;
  }

  /** At most three findings, and how many more there are. */
  function Concise(a: Alphabet, findings: seq<string>): string {
    var unique := Unique(a, findings);
    if |unique| <= 3 then Join(unique, "; ")
    else Join(unique[..3], "; ") + "; and " + GoJson.Decimal(|unique| - 3) + " more finding(s)"
  }

  // ---- one mapped check ----

  datatype Standing = Verified | NotInUse | Failing | Unsupported

  /** What the verdict says of a mapping. */
  function StandingOf(m: Mapping, checks: map<string, CheckOutput>): Standing {
    if m.checkID !in checks then Unsupported
    else
      var status := checks[m.checkID].result.status;
      if status == STATUS_PASS then Verified
      else if status == STATUS_NOT_IN_USE then (if m.notInUseStatement == "" then Unsupported else NotInUse)
      else if status == STATUS_FAIL then Failing
      else Unsupported
  }

  datatype Tally = Tally(
    failures: seq<string>, errorsOut: seq<string>, statements: seq<string>, notInUse: seq<string>, notInUseCount: nat)

  function ErrorText(findings: seq<string>): string {
    if findings == [] then "check could not be completed" else Join(findings, "; ")
  }

  function ErrorLine(m: Mapping, checks: map<string, CheckOutput>): string {
    m.checkID + ": " +
    if m.checkID !in checks then "check absent from latest verdict"
    else if checks[m.checkID].result.status == STATUS_NOT_IN_USE then "no not-in-use questionnaire statement is configured"
    else ErrorText(Items(checks[m.checkID].result.findings))
  }

  function FailureLines(output: CheckOutput): (r: seq<string>)
    ensures r != []
  {
    var findings := Items(output.result.findings);
    if findings == [] then [output.title + " is failing"] else findings
  }

  function NotInUseCount(m: Mapping, checks: map<string, CheckOutput>): nat {
    if m.checkID in checks && checks[m.checkID].result.status == STATUS_NOT_IN_USE then 1 else 0
  }

  function Counted(t: Tally, m: Mapping, checks: map<string, CheckOutput>): Tally {
    var u := t.(notInUseCount := t.notInUseCount + NotInUseCount(m, checks));
    match StandingOf(m, checks)
    case Verified => u.(statements := t.statements + [m.verifiedStatement])
    case NotInUse => u.(notInUse := t.notInUse + [m.notInUseStatement])
    case Failing => u.(failures := t.failures + FailureLines(checks[m.checkID]))
    case Unsupported => u.(errorsOut := t.errorsOut + [ErrorLine(m, checks)])
  }

  function TallyOf(ms: seq<Mapping>, checks: map<string, CheckOutput>): Tally {
    if ms == [] then Tally([], [], [], [], 0)
    else Counted(TallyOf(ms[..|ms| - 1], checks), ms[|ms| - 1], checks)
  }

  method Evaluate(ms: seq<Mapping>, checks: map<string, CheckOutput>) returns (t: Tally)
    ensures t == TallyOf(ms, checks)
  {
    var failures: seq<string>, errorsOut: seq<string> := [], [];
    var statements: seq<string>, notInUse: seq<string> := [], [];
    var count: nat := 0;
    for i := 0 to |ms|
      invariant Tally(failures, errorsOut, statements, notInUse, count) == TallyOf(ms[..i], checks)
    {
      assert ms[..i + 1][..i] == ms[..i];
      var m := ms[i];
      if m.checkID !in checks {
        errorsOut := errorsOut + [m.checkID + ": " + "check absent from latest verdict"];
        continue;
      }
      var output := checks[m.checkID];
      var findings := Items(output.result.findings);
      if output.result.status == STATUS_PASS {
        statements := statements + [m.verifiedStatement];
      } else if output.result.status == STATUS_NOT_IN_USE {
        count := count + 1;
        if m.notInUseStatement == "" {
          errorsOut := errorsOut + [m.checkID + ": " + "no not-in-use questionnaire statement is configured"];
        } else {
          notInUse := notInUse + [m.notInUseStatement];
        }
      } else if output.result.status == STATUS_FAIL {
        if findings == [] { failures := failures + [output.title + " is failing"]; }
        else { failures := failures + findings; }
      } else {
        errorsOut := errorsOut + [m.checkID + ": " + ErrorText(findings)];
      }
    }
    assert ms[..|ms|] == ms;
    t := Tally(failures, errorsOut, statements, notInUse, count);
  }

  predicate Has(ms: seq<Mapping>, checks: map<string, CheckOutput>, s: Standing) {
    exists m :: m in ms && StandingOf(m, checks) == s
  }

  lemma CountedMeans(t: Tally, m: Mapping, checks: map<string, CheckOutput>)
    ensures
      var u, s := Counted(t, m, checks), StandingOf(m, checks);
      && (u.errorsOut != [] <==> t.errorsOut != [] || s == Unsupported)
      && (u.failures != [] <==> t.failures != [] || s == Failing)
      && (u.statements != [] <==> t.statements != [] || s == Verified)
      && t.notInUseCount <= u.notInUseCount <= t.notInUseCount + 1
      && (s != Unsupported ==> (u.notInUseCount == t.notInUseCount + 1 <==> s == NotInUse))
  {
  }

  lemma HasSnoc(ms: seq<Mapping>, checks: map<string, CheckOutput>, s: Standing)
    requires ms != []
    ensures Has(ms, checks, s) <==> Has(ms[..|ms| - 1], checks, s) || StandingOf(ms[|ms| - 1], checks) == s
  {
    var n := |ms| - 1;
    assert ms == ms[..n] + [ms[n]];
    assert ms[n] in ms;
  }

  /** The tally tells which standings occur. */
  lemma {:induction false} TallyMeans(ms: seq<Mapping>, checks: map<string, CheckOutput>)
    ensures
      var t := TallyOf(ms, checks);
      && (t.errorsOut != [] <==> Has(ms, checks, Unsupported))
      && (t.failures != [] <==> Has(ms, checks, Failing))
      && (t.statements != [] <==> Has(ms, checks, Verified))
      && t.notInUseCount <= |ms|
      && (t.errorsOut == [] ==> (t.notInUseCount == |ms| <==> !Has(ms, checks, Failing) && !Has(ms, checks, Verified)))
  {
    if ms != [] {
      var n := |ms| - 1;
      TallyMeans(ms[..n], checks);
      CountedMeans(TallyOf(ms[..n], checks), ms[n], checks);
      HasSnoc(ms, checks, Unsupported);
      HasSnoc(ms, checks, Failing);
      HasSnoc(ms, checks, Verified);
    }
  }

  // ---- the decision ----

  ghost predicate Compound(e: Engine, question: string) {
    TopicSpec(e.config, e.text, question).0 == "policy" && MentionsAny(e.text, question, e.config.technicalPhrases)
  }

  ghost predicate Restricted(e: Engine, question: string) {
    TopicSpec(e.config, e.text, question).0 != "" && !Compound(e, question)
  }

  /** An exact control ID wins over keywords. */
  ghost function Matched(a: Alphabet, ms: seq<Mapping>, controlID: string, question: string): seq<Mapping> {
    if ExactSpec(a, ms, controlID) != [] then ExactSpec(a, ms, controlID) else KeywordSpec(a, ms, question)
  }

  ghost function MethodUsed(a: Alphabet, ms: seq<Mapping>, controlID: string): MatchMethod {
    if ExactSpec(a, ms, controlID) != [] then MatchExact else MatchKeyword
  }

  function Spaces(s: string): string {
    if s == "" then "" else (if s[0] == '_' then " " else [s[0]]) + Spaces(s[1..])
  }

  function RestrictedDecision(e: Engine, q: Query, topic: string, phrase: string): Decision {
    Decision(NeedsHuman, MatchRestricted, q.controlID, [], "", "",
             Spaces(topic) + " question contains " + Quoted(e, phrase) + "; ZeroDock never auto-answers this category",
             topic, "None — restricted topic")
  }

  function UnmatchedDecision(q: Query, gap: string): Decision {
    if gap != "" then
      Decision(NeedsHuman, MatchUnmatched, q.controlID, [], "", "", gap, "", "None — evidence gap")
    else
      Decision(NeedsHuman, MatchUnmatched, q.controlID, [], "", "", "no trustworthy control-ID or keyword match", "",
               "None — unmatched")
  }

  const IN_EFFECT := "ZeroDock verifies the technical control is in effect: "
  const HUMAN := " Policy/procedure documentation requires human input."

  function Label(compound: bool): string { if compound then "policy" else "" }

  function Confidence(how: MatchMethod): string {
    if how == MatchExact then "High — exact control ID" else "Medium — keyword match"
  }

  function CoverageText(q: Query): string { if q.coverage == "" then "account coverage unavailable" else q.coverage }

  function ErrorReason(t: Tally, compound: bool): string {
    "latest verdict cannot support an answer: " + Join(t.errorsOut, "; ")
    + if compound then "; policy/procedure documentation also requires human input" else ""
  }

  function FailingAnswer(a: Alphabet, t: Tally, compound: bool): string {
    var no := "would answer No — " + Concise(a, t.failures) + ", fix before submitting.";
    if compound then "Technical portion " + no + HUMAN else no
  }

  function FailingReason(compound: bool): string {
    "mapped ZeroDock control is currently failing" + if compound then "; documentation portion requires human input" else ""
  }

  function Tail(verb: string, q: Query): string { verb + " by ZeroDock across " + CoverageText(q) + " on " + q.date + "." }

  function AbsentAnswer(a: Alphabet, q: Query, t: Tally, compound: bool): string {
    var verified := Join(Unique(a, t.notInUse), "; ") + Tail(". Attested", q);
    if compound then "Partial — " + verified + HUMAN else "Not applicable — " + verified
  }

  function AbsentReason(compound: bool): string {
    if compound then "no applicable cloud resources observed; documentation portion requires human input"
    else "no applicable AI/ML resources observed in the scanned AWS estate"
  }

  function VerifiedAnswer(a: Alphabet, q: Query, t: Tally, compound: bool): string {
    var verified := Join(Unique(a, t.statements + t.notInUse), "; ") + Tail(". Verified", q);
    if compound then "Partial — " + IN_EFFECT + verified + HUMAN
    else "Yes — " + verified
  }

  function VerifiedReason(compound: bool): string {
    if compound then "technical portion supported; documentation portion requires human input"
    else "supported by the latest attested verdict"
  }

  function OutcomeOf(t: Tally, compound: bool): Outcome {
    if t.errorsOut != [] || t.failures != [] then Flagged else if compound then Partial else Answered
  }

  function AnswerOf(a: Alphabet, q: Query, n: nat, t: Tally, compound: bool): string {
    if t.errorsOut != [] then ""
    else if t.failures != [] then FailingAnswer(a, t, compound)
    else if t.notInUseCount == n then AbsentAnswer(a, q, t, compound)
    else VerifiedAnswer(a, q, t, compound)
  }

  function ReasonOf(n: nat, t: Tally, compound: bool): string {
    if t.errorsOut != [] then ErrorReason(t, compound)
    else if t.failures != [] then FailingReason(compound)
    else if t.notInUseCount == n then AbsentReason(compound)
    else VerifiedReason(compound)
  }

  /** Errors outrank failures, failures outrank anything said in favour. A decision about matched
      checks carries their IDs and the evidence URL. */
  function Conclude(a: Alphabet, q: Query, how: MatchMethod, checkIDs: seq<string>, n: nat, t: Tally, compound: bool): Decision {
    Decision(OutcomeOf(t, compound), how, q.controlID, checkIDs, AnswerOf(a, q, n, t, compound), q.evidenceURL,
             ReasonOf(n, t, compound), Label(compound), Confidence(how))
  }

  ghost function CheckIDs(ms: seq<Mapping>): seq<string> { GoSorted(set m | m in ms :: m.checkID) }

  ghost function DecideSpec(e: Engine, ms: seq<Mapping>, q: Query): Decision {
    var topic := TopicSpec(e.config, e.text, q.question);
    if Restricted(e, q.question) then
      RestrictedDecision(e, q, topic.0, topic.1)
    else
      var matched := Matched(e.text, ms, q.controlID, q.question);
      if matched == [] then UnmatchedDecision(q, GapSpec(e.text, q.question, e.config.evidenceGaps))
      else
        Conclude(e.text, q, MethodUsed(e.text, ms, q.controlID), CheckIDs(matched), |matched|,
                 TallyOf(matched, q.checks), Compound(e, q.question))
  }

  lemma {:induction false} SelectDistinct(ms: seq<Mapping>, keep: Mapping -> bool)
    requires DistinctChecks(ms)
    ensures DistinctChecks(Select(ms, keep))
  {
    if ms != [] {
      var n := |ms| - 1;
      SelectDistinct(ms[..n], keep);
      SelectMember(ms[..n], keep);
      forall m | m in Select(ms[..n], keep) ensures m.checkID != ms[n].checkID {
        var i :| 0 <= i < n && ms[..n][i] == m;
        assert ms[i] == m;
      }
    }
  }

  lemma MatchedDistinct(a: Alphabet, ms: seq<Mapping>, controlID: string, question: string)
    requires DistinctChecks(ms)
    ensures DistinctChecks(Matched(a, ms, controlID, question))
  {
    SelectDistinct(ms, m => MapsTo(a, m, NormalizeControlID(a, controlID)));
    SelectDistinct(ms, m => MappingScore(a, question, m) == Best(a, question, ms));
  }

  method SortedCheckIDs(matched: seq<Mapping>) returns (checkIDs: seq<string>)
    requires DistinctChecks(matched)
    ensures checkIDs == CheckIDs(matched)
  {
    var ids: seq<string> := [];
    for i := 0 to |matched|
      invariant |ids| == i && forall j | 0 <= j < i :: ids[j] == matched[j].checkID
    {
      ids := ids + [matched[i].checkID];
    }
    assert Elems(ids) == set m | m in matched :: m.checkID;
    checkIDs := SortStrings(ids);
  }

  method FindMatches(a: Alphabet, ms: seq<Mapping>, controlID: string, question: string)
    returns (matched: seq<Mapping>, how: MatchMethod)
    requires DistinctChecks(ms)
    ensures matched == Matched(a, ms, controlID, question) && DistinctChecks(matched)
    ensures how == MethodUsed(a, ms, controlID)
  {
    how := MatchExact;
    matched := ExactMatches(a, ms, controlID);
    if matched == [] {
      matched := KeywordMatches(a, ms, question);
      how := MatchKeyword;
    }
    MatchedDistinct(a, ms, controlID, question);
  }

  /** Decide, for a loaded mapping file: loading refuses duplicate check IDs. */
  method Decide(e: Engine, q: Query) returns (d: Decision)
    requires DistinctChecks(e.config.mappings)
    ensures d == DecideSpec(e, MappingList(e.config, q.accountID), q)
  {
    var topic, phrase := RestrictedTopic(e.config, e.text, q.question);
    var technical := HasTechnicalLanguage(e.config, e.text, q.question);
    var compound := topic == "policy" && technical;
    if topic != "" && !compound { return RestrictedDecision(e, q, topic, phrase); }
    var mappings := MappingsForAccount(e.config, q.accountID);
    MappingListUnique(e.config, q.accountID, mappings);
    d := DecideByMatch(e, mappings, q, compound);
  }

  method DecideByMatch(e: Engine, mappings: seq<Mapping>, q: Query, compound: bool) returns (d: Decision)
    requires DistinctChecks(mappings) && !Restricted(e, q.question) && compound == Compound(e, q.question)
    ensures d == DecideSpec(e, mappings, q)
  {
    var matched, how := FindMatches(e.text, mappings, q.controlID, q.question);
    if matched == [] {
      var gap := EvidenceGapReason(e.config, e.text, q.question);
      return UnmatchedDecision(q, gap);
    }
    var checkIDs := SortedCheckIDs(matched);
    var tally := Evaluate(matched, q.checks);
    d := Conclude(e.text, q, how, checkIDs, |matched|, tally, compound);
  }

  // ---- what a decision means, for every mapping list ----

  /** Every matched check is in the verdict and passed, or is not in use with a statement for it. */
  predicate Supported(matched: seq<Mapping>, checks: map<string, CheckOutput>) {
    && matched != []
    && forall m | m in matched ::
         && m.checkID in checks
         && var status := checks[m.checkID].result.status;
            status == STATUS_PASS || (status == STATUS_NOT_IN_USE && m.notInUseStatement != "")
  }

  predicate SomePasses(matched: seq<Mapping>, checks: map<string, CheckOutput>) {
    exists m :: m in matched && m.checkID in checks && checks[m.checkID].result.status == STATUS_PASS
  }

  lemma SupportedMeans(matched: seq<Mapping>, checks: map<string, CheckOutput>)
    ensures Supported(matched, checks)
            <==> matched != [] && !Has(matched, checks, Unsupported) && !Has(matched, checks, Failing)
    ensures SomePasses(matched, checks) <==> Has(matched, checks, Verified)
  {
    if Supported(matched, checks) {
      forall m | m in matched ensures StandingOf(m, checks) != Unsupported && StandingOf(m, checks) != Failing {}
    }
    if !Has(matched, checks, Unsupported) && !Has(matched, checks, Failing) {
      forall m | m in matched ensures StandingOf(m, checks) == Verified || StandingOf(m, checks) == NotInUse {}
    }
    if SomePasses(matched, checks) {
      var m :| m in matched && m.checkID in checks && checks[m.checkID].result.status == STATUS_PASS;
      assert StandingOf(m, checks) == Verified;
    }
  }

  lemma MatchedOutcome(e: Engine, ms: seq<Mapping>, q: Query)
    requires !Restricted(e, q.question) && Matched(e.text, ms, q.controlID, q.question) != []
    ensures
      var d, matched := DecideSpec(e, ms, q), Matched(e.text, ms, q.controlID, q.question);
      && d.outcome == (if !Supported(matched, q.checks) then Flagged else if Compound(e, q.question) then Partial else Answered)
      && d.matchMethod == MethodUsed(e.text, ms, q.controlID) && d.evidenceURL == q.evidenceURL
  {
    var matched := Matched(e.text, ms, q.controlID, q.question);
    TallyMeans(matched, q.checks);
    SupportedMeans(matched, q.checks);
  }

  /** OUTCOMES: each of the four happens exactly under its condition. */
  lemma OutcomeIff(e: Engine, ms: seq<Mapping>, q: Query)
    ensures
      var d, matched := DecideSpec(e, ms, q), Matched(e.text, ms, q.controlID, q.question);
      var restricted, compound := Restricted(e, q.question), Compound(e, q.question);
      && (d.outcome == NeedsHuman <==> restricted || matched == [])
      && (d.outcome == Flagged <==> !restricted && matched != [] && !Supported(matched, q.checks))
      && (d.outcome == Answered <==> !restricted && !compound && Supported(matched, q.checks))
      && (d.outcome == Partial <==> !restricted && compound && Supported(matched, q.checks))
      && (d.matchMethod == MatchRestricted <==> restricted)
      && (d.outcome == NeedsHuman ==> d.answer == "" && d.evidenceURL == "" && d.checkIDs == [])
      && (d.outcome != NeedsHuman ==> d.evidenceURL == q.evidenceURL)
  {
    if !Restricted(e, q.question) && Matched(e.text, ms, q.controlID, q.question) != [] { MatchedOutcome(e, ms, q); }
  }

  predicate Starts(s: string, p: string) { |p| <= |s| && s[..|p|] == p }

  /** NO OVER-CLAIM: "Yes" is said exactly when the question is answered and some check passed,
      "Not applicable" exactly when nothing is in use; a partial answer never opens with either. */
  lemma AnswerWords(e: Engine, ms: seq<Mapping>, q: Query)
    ensures
      var d, matched := DecideSpec(e, ms, q), Matched(e.text, ms, q.controlID, q.question);
      var supported, passes := Supported(matched, q.checks), SomePasses(matched, q.checks);
      var open := !Restricted(e, q.question) && supported;
      && (Starts(d.answer, "Yes") <==> open && !Compound(e, q.question) && passes)
      && (Starts(d.answer, "Not applicable") <==> open && !Compound(e, q.question) && !passes)
      && (Starts(d.answer, "Partial") <==> open && Compound(e, q.question))
  {
    var matched := Matched(e.text, ms, q.controlID, q.question);
    OutcomeIff(e, ms, q);
    TallyMeans(matched, q.checks);
    SupportedMeans(matched, q.checks);
    if !Restricted(e, q.question) && matched != [] {
      ConcludeWords(e.text, q, MethodUsed(e.text, ms, q.controlID), CheckIDs(matched), |matched|,
                    TallyOf(matched, q.checks), Compound(e, q.question));
    }
  }

  lemma ConcludeWords(a: Alphabet, q: Query, how: MatchMethod, checkIDs: seq<string>, n: nat, t: Tally, compound: bool)
    ensures
      var answer := Conclude(a, q, how, checkIDs, n, t, compound).answer;
      var open := t.errorsOut == [] && t.failures == [];
      Opens(answer, open && !compound && t.notInUseCount != n, open && !compound && t.notInUseCount == n, open && compound)
  {
    if t.errorsOut != [] { }
    else if t.failures != [] { FailingOpening(a, t, compound); }
    else if t.notInUseCount == n { AbsentOpening(a, q, t, compound); }
    else { VerifiedOpening(a, q, t, compound); }
  }

  /** Which of the three opening words a text has. */
  predicate Opens(s: string, yes: bool, notApplicable: bool, partial: bool) {
    (Starts(s, "Yes") <==> yes) && (Starts(s, "Not applicable") <==> notApplicable) && (Starts(s, "Partial") <==> partial)
  }

  lemma FailingOpening(a: Alphabet, t: Tally, compound: bool)
    ensures Opens(FailingAnswer(a, t, compound), false, false, false)
  {
    var s := FailingAnswer(a, t, compound);
    OpeningWords(s);
    assert s[0] == if compound then 'T' else 'w';
  }

  lemma AbsentOpening(a: Alphabet, q: Query, t: Tally, compound: bool)
    ensures Opens(AbsentAnswer(a, q, t, compound), false, !compound, compound)
  {
    OpeningWords(AbsentAnswer(a, q, t, compound));
    var body := Join(Unique(a, t.notInUse), "; ") + Tail(". Attested", q);
    if compound { StartsFramed("Partial — ", body, HUMAN, "Partial"); }
    else { StartsFramed("Not applicable — ", body, "", "Not applicable"); }
  }

  lemma VerifiedOpening(a: Alphabet, q: Query, t: Tally, compound: bool)
    ensures Opens(VerifiedAnswer(a, q, t, compound), !compound, false, compound)
  {
    OpeningWords(VerifiedAnswer(a, q, t, compound));
    var body := Join(Unique(a, t.statements + t.notInUse), "; ") + Tail(". Verified", q);
    if compound { StartsFramed("Partial — ", IN_EFFECT, "", "Partial"); StartsFramed("Partial — " + IN_EFFECT, body, HUMAN, "Partial"); }
    else { StartsFramed("Yes — ", body, "", "Yes"); }
  }

  lemma StartsFramed(lead: string, body: string, end: string, w: string)
    requires Starts(lead, w)
    ensures Starts(lead + body + end, w) && Starts(lead + body, w)
  {
    assert (lead + body)[..|w|] == lead[..|w|];
    assert (lead + body + end)[..|w|] == lead[..|w|];
  }

  lemma OpeningWords(s: string)
    ensures Starts(s, "Yes") ==> s[0] == 'Y'
    ensures Starts(s, "Not applicable") ==> s[0] == 'N'
    ensures Starts(s, "Partial") ==> s[0] == 'P'
  {
  }

  /** A check that is missing, in error or failing, or not in use without a statement, flags the
      question; failing ones alone are named, and the answer text then says No. */
  lemma OneBadCheckFlags(e: Engine, ms: seq<Mapping>, q: Query, m: Mapping)
    requires !Restricted(e, q.question) && m in Matched(e.text, ms, q.controlID, q.question)
    requires !Supported([m], q.checks)
    ensures
      var d := DecideSpec(e, ms, q);
      var no := "would answer No";
      && d.outcome == Flagged && d.evidenceURL == q.evidenceURL
      && (m.checkID !in q.checks || q.checks[m.checkID].result.status != STATUS_FAIL ==> d.answer == "")
      && (d.answer == "" || Starts(d.answer, no) || Starts(d.answer, "Technical portion " + no))
  {
    var matched := Matched(e.text, ms, q.controlID, q.question);
    TallyMeans(matched, q.checks);
    SupportedMeans(matched, q.checks);
    assert Has(matched, q.checks, StandingOf(m, q.checks)) && m in [m];
    FailingWords(e.text, TallyOf(matched, q.checks), Compound(e, q.question));
  }

  lemma FailingWords(a: Alphabet, t: Tally, compound: bool)
    ensures
      var no := "would answer No";
      Starts(FailingAnswer(a, t, compound), no) || Starts(FailingAnswer(a, t, compound), "Technical portion " + no)
  {
    var rest := Concise(a, t.failures) + ", fix before submitting.";
    var no := "would answer No — " + rest;
    assert no == "would answer No — " + Concise(a, t.failures) + ", fix before submitting.";
    StartsFramed("would answer No — ", rest, "", "would answer No");
    if compound {
      assert no[..15] == "would answer No";
      assert ("Technical portion " + no)[..33] == "Technical portion " + no[..15];
      StartsFramed("Technical portion " + no, HUMAN, "", "Technical portion " + "would answer No");
    }
  }

  /** WHAT IS RESTRICTED: some topic is mentioned, none named "", and it is not the case that
      "policy" sorts first among them beside technical language. */
  lemma RestrictedIff(e: Engine, question: string)
    ensures
      var hits := TopicsIn(e.config, e.text, question);
      Restricted(e, question) <==>
        && hits != {} && "" !in hits
        && !(&& "policy" in hits && (forall t | t in hits && t != "policy" :: GoLess("policy", t))
             && MentionsAny(e.text, question, e.config.technicalPhrases))
  {
    var hits := TopicsIn(e.config, e.text, question);
    if hits != {} {
      var r := GoSorted(hits);
      assert r != [] by { var t :| t in hits; assert t in Elems(r); }
      var first := r[0];
      assert first in Elems(r);
      forall t | t in hits && t != first ensures GoLess(first, t) {
        assert t in Elems(r);
        var i :| 0 <= i < |r| && r[i] == t;
      }
      if "" in hits { EmptyFirst(hits, first); }
      if "policy" in hits && (forall t | t in hits && t != "policy" :: GoLess("policy", t)) {
        FirstOfSorted(hits, "policy");
      }
    }
  }

  lemma EmptyFirst(hits: set<string>, first: string)
    requires "" in hits && first in hits && forall t | t in hits && t != first :: GoLess(first, t)
    ensures first == ""
  {
    assert !LexLess(Points(first), Points(""));
  }

  // Two valid files under which a protected question is not restricted.

  const LETTERS := Alphabet({'g', 'h', 'p', 's', 't', 'x'}, {' '}, map[], map[])

  const REQUIRED: map<string, seq<string>> :=
    map["policy" := ["p"], "human_resources" := ["h"], "governance" := ["g"], "physical_security" := ["s"]]

  function EngineWith(topics: map<string, seq<string>>): Engine {
    Engine(Config(1, 5, 3, topics, ["t"], [], [], map[]), LETTERS, map[])
  }

  lemma LettersTokens(words: seq<string>)
    requires Words(LETTERS, words)
    ensures Tokens(LETTERS, Join(words, " ")) == words
  {
    FieldsOfJoin(LETTERS, words);
    assert Map(LETTERS.lower, Join(words, " ")) == Join(words, " ");
  }

  lemma LettersMention(words: seq<string>, w: string)
    requires Words(LETTERS, words) && Word(LETTERS, w)
    ensures Mentions(LETTERS, Join(words, " "), w) <==> w in words
  {
    LettersTokens(words);
    LettersTokens([w]);
    ContainsPhraseMeansRun(LETTERS, Join(words, " "), w);
    if i :| 0 <= i <= |words| && RunAt(words, [w], i) { assert words[i] == words[i..i + 1][0]; }
    if i :| 0 <= i < |words| && words[i] == w { assert RunAt(words, [w], i); }
  }

  /** Which topics, one letter each, a question of letters mentions. */
  lemma LettersTopics(topics: map<string, seq<string>>, words: seq<string>, t: string, w: string)
    requires Words(LETTERS, words) && Word(LETTERS, w) && t in topics && topics[t] == [w]
    ensures t in TopicsIn(EngineWith(topics).config, LETTERS, Join(words, " ")) <==> w in words
  {
    LettersMention(words, w);
    assert w in topics[t];
  }

  lemma LettersWords(words: seq<string>)
    requires words == ["p", "x", "t"]
    ensures Words(LETTERS, words) && "t" in words
  {
  }

  lemma LettersValid(t: string, w: string)
    ensures Valid(EngineWith(REQUIRED[t := [w]]).config)
  {
  }

  /** A topic named "" comes first and hides governance. */
  lemma EmptyTopicHides(words: seq<string>)
    requires words == ["p", "g"]
    ensures
      var e := EngineWith(REQUIRED["" := ["p"]]);
      Valid(e.config) && "governance" in TopicsIn(e.config, LETTERS, Join(words, " ")) && !Restricted(e, Join(words, " "))
  {
    var topics := REQUIRED["" := ["p"]];
    assert Words(LETTERS, words) && Word(LETTERS, "p") && Word(LETTERS, "g");
    LettersValid("", "p");
    LettersTopics(topics, words, "", "p");
    LettersTopics(topics, words, "governance", "g");
    RestrictedIff(EngineWith(topics), Join(words, " "));
  }

  /** Every topic has one letter; p stands for policy only, x for privacy only, t for none. */
  ghost predicate OneLetterEach(topics: map<string, seq<string>>) {
    && "policy" in topics && "privacy" in topics
    && forall t | t in topics ::
         && |topics[t]| == 1 && Word(LETTERS, topics[t][0]) && topics[t][0] != "t"
         && (topics[t][0] == "p" <==> t == "policy") && (topics[t][0] == "x" <==> t == "privacy")
  }

  lemma PrivacyLetters()
    ensures OneLetterEach(REQUIRED["privacy" := ["x"]])
  {
  }

  lemma OnlyPolicyAndPrivacy(topics: map<string, seq<string>>, words: seq<string>)
    requires words == ["p", "x", "t"] && Words(LETTERS, words) && OneLetterEach(topics)
    ensures TopicsIn(EngineWith(topics).config, LETTERS, Join(words, " ")) == {"policy", "privacy"}
  {
    forall t | t in topics
      ensures t in TopicsIn(EngineWith(topics).config, LETTERS, Join(words, " ")) <==> t in {"policy", "privacy"}
    {
      LettersTopics(topics, words, t, topics[t][0]);
      assert topics[t] == [topics[t][0]];
    }
  }

  lemma PolicyBeforePrivacy()
    ensures GoLess("policy", "privacy")
  {
    var p, q := Points("policy"), Points("privacy");
    assert p[0] == q[0] && p[1..][0] < q[1..][0];
  }

  lemma UnprotectedBesidePolicy(e: Engine, question: string)
    requires TopicsIn(e.config, e.text, question) == {"policy", "privacy"} && MentionsAny(e.text, question, e.config.technicalPhrases)
    ensures !Restricted(e, question)
  {
    PolicyBeforePrivacy();
    RestrictedIff(e, question);
  }

  lemma LettersTechnical(topics: map<string, seq<string>>, words: seq<string>)
    requires Words(LETTERS, words) && "t" in words
    ensures MentionsAny(LETTERS, Join(words, " "), EngineWith(topics).config.technicalPhrases)
  {
    assert Word(LETTERS, "t");
    LettersMention(words, "t");
    assert "t" in EngineWith(topics).config.technicalPhrases;
  }

  /** A topic that sorts after policy is not protected beside a policy phrase and technical language. */
  lemma LaterTopicUnprotected(words: seq<string>)
    requires words == ["p", "x", "t"]
    ensures
      var e := EngineWith(REQUIRED["privacy" := ["x"]]);
      Valid(e.config) && "privacy" in TopicsIn(e.config, LETTERS, Join(words, " ")) && !Restricted(e, Join(words, " "))
  {
    var topics := REQUIRED["privacy" := ["x"]];
    LettersWords(words);
    LettersValid("privacy", "x");
    PrivacyLetters();
    OnlyPolicyAndPrivacy(topics, words);
    LettersTechnical(topics, words);
    UnprotectedBesidePolicy(EngineWith(topics), Join(words, " "));
  }

  // ---- nothing is left out of an answer ----

  lemma ContainsMiddle(x: string, s: string, y: string, t: string)
    requires Contains(s, t)
    ensures Contains(x + s + y, t)
  {
    var i :| 0 <= i <= |s| && Occurs(s, t, i);
    assert (x + s + y)[|x| + i..|x| + i + |t|] == s[i..i + |t|];
    assert Occurs(x + s + y, t, |x| + i);
  }

  lemma {:induction false} JoinContains(ts: seq<string>, sep: string, t: string)
    requires t in ts
    ensures Contains(Join(ts, sep), t)
  {
    if |ts| == 1 {
      assert Occurs(ts[0], t, 0);
    } else if ts[0] == t {
      assert Join(ts, sep)[0..0 + |t|] == t;
      assert Occurs(Join(ts, sep), t, 0);
    } else {
      JoinContains(ts[1..], sep, t);
      ContainsMiddle(ts[0] + sep, Join(ts[1..], sep), "", t);
      assert ts[0] + sep + Join(ts[1..], sep) + "" == Join(ts, sep);
    }
  }

  function Statement(m: Mapping, checks: map<string, CheckOutput>): string {
    if m.checkID in checks && checks[m.checkID].result.status == STATUS_NOT_IN_USE then m.notInUseStatement else m.verifiedStatement
  }

  lemma {:induction false} TallyLists(ms: seq<Mapping>, checks: map<string, CheckOutput>, m: Mapping)
    requires m in ms
    ensures StandingOf(m, checks) == Verified ==> m.verifiedStatement in TallyOf(ms, checks).statements
    ensures StandingOf(m, checks) == NotInUse ==> m.notInUseStatement in TallyOf(ms, checks).notInUse
  {
    var n := |ms| - 1;
    if ms[n] != m {
      assert ms == ms[..n] + [ms[n]];
      TallyLists(ms[..n], checks, m);
    }
  }

  lemma {:induction false} TallyCountsVerified(ms: seq<Mapping>, checks: map<string, CheckOutput>)
    ensures TallyOf(ms, checks).statements != [] ==> TallyOf(ms, checks).notInUseCount < |ms|
  {
    TallyMeans(ms, checks);
    if ms != [] {
      TallyCountsVerified(ms[..|ms| - 1], checks);
      TallyMeans(ms[..|ms| - 1], checks);
    }
  }

  lemma ConcludeStates(a: Alphabet, q: Query, how: MatchMethod, checkIDs: seq<string>, ms: seq<Mapping>, compound: bool, m: Mapping)
    requires m in ms && Supported(ms, q.checks)
    ensures Contains(Conclude(a, q, how, checkIDs, |ms|, TallyOf(ms, q.checks), compound).answer, Trim(a, Statement(m, q.checks)))
  {
    var t := TallyOf(ms, q.checks);
    TallyMeans(ms, q.checks);
    SupportedMeans(ms, q.checks);
    TallyLists(ms, q.checks, m);
    TallyCountsVerified(ms, q.checks);
    assert StandingOf(m, q.checks) == Verified || StandingOf(m, q.checks) == NotInUse;
    if t.notInUseCount == |ms| {
      AbsentContains(a, q, t, compound, Statement(m, q.checks));
    } else {
      VerifiedContains(a, q, t, compound, Statement(m, q.checks));
    }
  }

  /** COMPLETE: an answer, full or partial, contains the statement of every matched check, trimmed. */
  lemma AnswerStatesEveryCheck(e: Engine, ms: seq<Mapping>, q: Query, m: Mapping)
    requires m in Matched(e.text, ms, q.controlID, q.question)
    ensures
      var d := DecideSpec(e, ms, q);
      d.outcome == Answered || d.outcome == Partial ==> Contains(d.answer, Trim(e.text, Statement(m, q.checks)))
  {
    var matched := Matched(e.text, ms, q.controlID, q.question);
    OutcomeIff(e, ms, q);
    if !Restricted(e, q.question) && Supported(matched, q.checks) {
      ConcludeStates(e.text, q, MethodUsed(e.text, ms, q.controlID), CheckIDs(matched), matched, Compound(e, q.question), m);
    }
  }

  lemma UniqueContains(a: Alphabet, items: seq<string>, s: string)
    requires s in items
    ensures Contains(Join(Unique(a, items), "; "), Trim(a, s))
  {
    var joined := Join(Unique(a, items), "; ");
    if Trim(a, s) == "" {
      assert Occurs(joined, "", 0);
    } else {
      JoinContains(Unique(a, items), "; ", Trim(a, s));
    }
  }

  lemma ClaimsFramed(lead: string, claims: string, tail: string, end: string, t: string)
    requires Contains(claims, t)
    ensures Contains(lead + (claims + tail) + end, t) && Contains(lead + (claims + tail), t)
  {
    ContainsMiddle("", claims, tail, t);
    assert "" + claims + tail == claims + tail;
    ContainsMiddle(lead, claims + tail, end, t);
    ContainsMiddle(lead, claims + tail, "", t);
    assert lead + (claims + tail) + "" == lead + (claims + tail);
  }

  lemma AbsentContains(a: Alphabet, q: Query, t: Tally, compound: bool, s: string)
    requires s in t.notInUse
    ensures Contains(AbsentAnswer(a, q, t, compound), Trim(a, s))
  {
    UniqueContains(a, t.notInUse, s);
    var lead := if compound then "Partial — " else "Not applicable — ";
    ClaimsFramed(lead, Join(Unique(a, t.notInUse), "; "), Tail(". Attested", q), HUMAN, Trim(a, s));
  }

  lemma VerifiedContains(a: Alphabet, q: Query, t: Tally, compound: bool, s: string)
    requires s in t.statements || s in t.notInUse
    ensures Contains(VerifiedAnswer(a, q, t, compound), Trim(a, s))
  {
    UniqueContains(a, t.statements + t.notInUse, s);
    var lead := if compound then "Partial — " + IN_EFFECT else "Yes — ";
    ClaimsFramed(lead, Join(Unique(a, t.statements + t.notInUse), "; "), Tail(". Verified", q), HUMAN, Trim(a, s));
  }
}
