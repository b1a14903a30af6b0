/** internal/questionnaire/matcher.go: what the texts of a decision say about the matched checks. */
module Wording {
  import opened Sorting
  import opened Report
  import opened Text
  import opened QuestionnaireConfig
  import opened Matcher
  import opened Decide
  import GoJson

  // ---- which texts come first ----

  /** The different texts, trimmed; empty ones do not count. */
  function Texts(a: Alphabet, items: seq<string>): set<string> {
    set s | s in items && Trim(a, s) != "" :: Trim(a, s)
  }

  lemma TextsElems(a: Alphabet, items: seq<string>)
    ensures Texts(a, items) == Elems(Unique(a, items)) && |Texts(a, items)| == |Unique(a, items)|
  {
    var u := Unique(a, items);
    forall t ensures t in Texts(a, items) <==> t in Elems(u) {
      assert t in Elems(u) <==> t in u;
    }
    NoDuplicatesSize(u);
  }

  lemma {:induction false} NoDuplicatesSize(s: seq<string>)
    requires NoDuplicates(s)
    ensures |Elems(s)| == |s|
  {
    if s != [] {
      var n := |s| - 1;
      NoDuplicatesSize(s[..n]);
      SnocElems(s[..n], s[n]);
      assert s == s[..n] + [s[n]] && s[n] !in Elems(s[..n]);
    }
  }

  lemma UniqueGrows(a: Alphabet, items: seq<string>)
    requires items != []
    ensures Unique(a, items[..|items| - 1]) <= Unique(a, items)
  {
  }

  lemma {:induction false} UniquePrefix(a: Alphabet, items: seq<string>, k: nat)
    requires k <= |items|
    ensures Unique(a, items[..k]) <= Unique(a, items)
  {
    if k == |items| {
      assert items[..k] == items;
    } else {
      var n := |items| - 1;
      UniquePrefix(a, items[..n], k);
      UniqueGrows(a, items);
      assert items[..n][..k] == items[..k];
    }
  }

  /** A text with fewer than three others before it is among the first three. */
  lemma EarlyText(a: Alphabet, items: seq<string>, k: nat)
    requires k < |items| && Trim(a, items[k]) != "" && |Texts(a, items[..k])| < 3
    ensures exists i :: 0 <= i < 3 && i < |Unique(a, items)| && Unique(a, items)[i] == Trim(a, items[k])
  {
    var now := Unique(a, items[..k + 1]);
    TextsElems(a, items[..k]);
    UniquePrefix(a, items, k + 1);
    assert items[..k + 1][..k] == items[..k];
    assert items[k] in items[..k + 1];
    var i :| 0 <= i < |now| && now[i] == Trim(a, items[k]);
    assert Unique(a, items)[i] == now[i];
  }

  lemma ContainsAt(s: string, t: string, i: nat)
    requires Occurs(s, t, i)
    ensures Contains(s, t)
  {
  }

  lemma ContainsItself(s: string)
    ensures Contains(s, s)
  {
    ContainsAt(s, s, 0);
  }

  lemma MoreText(joined: string, number: string)
    ensures
      var text, more := joined + "; and " + number + " more finding(s)", "and " + number + " more finding(s)";
      Contains(text, joined) && Contains(text, more)
  {
    var text, more := joined + "; and " + number + " more finding(s)", "and " + number + " more finding(s)";
    assert text[..|joined|] == joined;
    ContainsAt(text, joined, 0);
    assert text == joined + "; " + more by { assert "; and " == "; " + "and "; }
    assert text[|joined| + 2..] == more;
    ContainsAt(text, more, |joined| + 2);
  }

  lemma ContainsInner(s: string, m: string, t: string)
    requires Contains(s, m) && Contains(m, t)
    ensures Contains(s, t)
  {
    var i :| 0 <= i <= |s| && Occurs(s, m, i);
    ContainsMiddle(s[..i], m, s[i + |m|..], t);
    assert s[..i] + m + s[i + |m|..] == s;
  }

  /** The short form names a text among the first three, and says how many more there are. */
  lemma ConciseNames(a: Alphabet, items: seq<string>, i: nat)
    requires i < 3 && i < |Unique(a, items)|
    ensures Contains(Concise(a, items), Unique(a, items)[i])
  {
    var u := Unique(a, items);
    if |u| <= 3 {
      JoinContains(u, "; ", u[i]);
    } else {
      ConciseLong(a, items);
      assert u[..3][i] == u[i];
      JoinContains(u[..3], "; ", u[i]);
      ContainsInner(Concise(a, items), Join(u[..3], "; "), u[i]);
    }
  }

  lemma ConciseLong(a: Alphabet, items: seq<string>)
    requires |Unique(a, items)| > 3
    ensures Contains(Concise(a, items), Join(Unique(a, items)[..3], "; "))
    ensures Contains(Concise(a, items), "and " + GoJson.Decimal(|Unique(a, items)| - 3) + " more finding(s)")
  {
    MoreText(Join(Unique(a, items)[..3], "; "), GoJson.Decimal(|Unique(a, items)| - 3));
  }

  // ---- failing checks ----

  /** The findings of the failing checks in mapping order; a failing check without findings is named by its title. */
  function Failing(ms: seq<Mapping>, checks: map<string, CheckOutput>): seq<string> {
    if ms == [] then []
    else
      var m := ms[|ms| - 1];
      Failing(ms[..|ms| - 1], checks)
      + if m.checkID in checks && checks[m.checkID].result.status == "fail" then
          if Items(checks[m.checkID].result.findings) == [] then [checks[m.checkID].title + " is failing"]
          else Items(checks[m.checkID].result.findings)
        else []
  }

  lemma {:induction false} FailuresAre(ms: seq<Mapping>, checks: map<string, CheckOutput>)
    ensures TallyOf(ms, checks).failures == Failing(ms, checks)
  {
    if ms != [] { FailuresAre(ms[..|ms| - 1], checks); }
  }

  /** In the verdict, and passing, failing, or not in use with a statement for that. */
  predicate Conclusive(m: Mapping, checks: map<string, CheckOutput>) {
    && m.checkID in checks
    && var status := checks[m.checkID].result.status;
       status == "pass" || status == "fail" || (status == "not_in_use" && m.notInUseStatement != "")
  }

  lemma ConclusiveIff(ms: seq<Mapping>, checks: map<string, CheckOutput>)
    ensures TallyOf(ms, checks).errorsOut == [] <==> forall m | m in ms :: Conclusive(m, checks)
  {
    TallyMeans(ms, checks);
    if m :| m in ms && !Conclusive(m, checks) { assert StandingOf(m, checks) == Unsupported; }
  }

  /** What a text about failures must contain: each text with fewer than three others before it, and how many
      there are beyond three. */
  ghost predicate NamesFailures(a: Alphabet, text: string, items: seq<string>) {
    && (forall k | 0 <= k < |items| && Trim(a, items[k]) != "" && |Texts(a, items[..k])| < 3 :: Contains(text, Trim(a, items[k])))
    && (|Texts(a, items)| > 3 ==> Contains(text, "and " + GoJson.Decimal(|Texts(a, items)| - 3) + " more finding(s)"))
  }

  lemma ConciseIsEnough(a: Alphabet, items: seq<string>)
    ensures NamesFailures(a, Concise(a, items), items)
  {
    forall k | 0 <= k < |items| && Trim(a, items[k]) != "" && |Texts(a, items[..k])| < 3
      ensures Contains(Concise(a, items), Trim(a, items[k]))
    {
      EarlyText(a, items, k);
      var i :| 0 <= i < 3 && i < |Unique(a, items)| && Unique(a, items)[i] == Trim(a, items[k]);
      ConciseNames(a, items, i);
    }
    TextsElems(a, items);
    if |Texts(a, items)| > 3 { ConciseLong(a, items); }
  }

  lemma NamesMore(a: Alphabet, lead: string, text: string, tail: string, items: seq<string>)
    requires NamesFailures(a, text, items)
    ensures NamesFailures(a, lead + text + tail, items)
  {
    forall k | 0 <= k < |items| && Trim(a, items[k]) != "" && |Texts(a, items[..k])| < 3
      ensures Contains(lead + text + tail, Trim(a, items[k]))
    {
      ContainsMiddle(lead, text, tail, Trim(a, items[k]));
    }
    if |Texts(a, items)| > 3 {
      ContainsMiddle(lead, text, tail, "and " + GoJson.Decimal(|Texts(a, items)| - 3) + " more finding(s)");
    }
  }

  lemma FailingAnswerNames(a: Alphabet, t: Tally, compound: bool)
    ensures NamesFailures(a, FailingAnswer(a, t, compound), t.failures)
  {
    var concise := Concise(a, t.failures);
    var no := "would answer No — " + concise + ", fix before submitting.";
    ConciseIsEnough(a, t.failures);
    NamesMore(a, "would answer No — ", concise, ", fix before submitting.", t.failures);
    if compound { NamesMore(a, "Technical portion ", no, HUMAN, t.failures); }
  }

  /** NAMES WHAT FAILS: when every matched check is conclusive and some fail, the answer contains the first three
      different failing findings and the number of the others. */
  lemma FlaggedAnswerNames(e: Engine, ms: seq<Mapping>, q: Query)
    requires !Restricted(e, q.question)
    requires
      var matched := Matched(e.text, ms, q.controlID, q.question);
      (forall m | m in matched :: Conclusive(m, q.checks)) && Failing(matched, q.checks) != []
    ensures NamesFailures(e.text, DecideSpec(e, ms, q).answer, Failing(Matched(e.text, ms, q.controlID, q.question), q.checks))
  {
    var matched := Matched(e.text, ms, q.controlID, q.question);
    FailuresAre(matched, q.checks);
    ConclusiveIff(matched, q.checks);
    FailingAnswerNames(e.text, TallyOf(matched, q.checks), Compound(e, q.question));
  }

  // ---- checks that support no answer ----

  /** What is to be said of a check that is missing, not in use without a statement, or in error. */
  ghost predicate NamesCheck(text: string, m: Mapping, checks: map<string, CheckOutput>) {
    if m.checkID !in checks then Contains(text, m.checkID + ": " + "check absent from latest verdict")
    else if checks[m.checkID].result.status == "not_in_use" then
      Contains(text, m.checkID + ": " + "no not-in-use questionnaire statement is configured")
    else if Items(checks[m.checkID].result.findings) == [] then Contains(text, m.checkID + ": " + "check could not be completed")
    else
      && Contains(text, m.checkID + ": ")
      && forall f | f in Items(checks[m.checkID].result.findings) :: Contains(text, f)
  }

  lemma {:induction false} ErrorLineIn(ms: seq<Mapping>, checks: map<string, CheckOutput>, m: Mapping)
    requires m in ms && !Conclusive(m, checks)
    ensures ErrorLine(m, checks) in TallyOf(ms, checks).errorsOut
  {
    var n := |ms| - 1;
    assert ms == ms[..n] + [ms[n]];
    ErrorsNext(TallyOf(ms[..n], checks), ms[n], checks);
    if m != ms[n] { ErrorLineIn(ms[..n], checks, m); }
  }

  lemma ErrorsNext(t: Tally, m: Mapping, checks: map<string, CheckOutput>)
    ensures Counted(t, m, checks).errorsOut == t.errorsOut + if Conclusive(m, checks) then [] else [ErrorLine(m, checks)]
  {
    assert Conclusive(m, checks) <==> StandingOf(m, checks) != Unsupported;
  }

  lemma LeadOf(lead: string, rest: string)
    ensures Contains(lead + rest, lead) && Contains(lead + rest, rest)
  {
    assert (lead + rest)[..|lead|] == lead && (lead + rest)[|lead|..] == rest;
    ContainsAt(lead + rest, lead, 0);
    ContainsAt(lead + rest, rest, |lead|);
  }

  lemma ErrorLineNames(m: Mapping, checks: map<string, CheckOutput>)
    requires !Conclusive(m, checks)
    ensures NamesCheck(ErrorLine(m, checks), m, checks)
  {
    if m.checkID in checks && checks[m.checkID].result.status != "not_in_use" && Items(checks[m.checkID].result.findings) != [] {
      FindingsNamed(m.checkID + ": ", Items(checks[m.checkID].result.findings));
    } else {
      ContainsItself(ErrorLine(m, checks));
    }
  }

  lemma FindingsNamed(lead: string, findings: seq<string>)
    ensures Contains(lead + Join(findings, "; "), lead) && forall f | f in findings :: Contains(lead + Join(findings, "; "), f)
  {
    LeadOf(lead, Join(findings, "; "));
    forall f | f in findings ensures Contains(lead + Join(findings, "; "), f) {
      JoinContains(findings, "; ", f);
      ContainsInner(lead + Join(findings, "; "), Join(findings, "; "), f);
    }
  }

  lemma NamesCheckMore(text: string, line: string, m: Mapping, checks: map<string, CheckOutput>)
    requires Contains(text, line) && NamesCheck(line, m, checks)
    ensures NamesCheck(text, m, checks)
  {
    forall t | Contains(line, t) ensures Contains(text, t) { ContainsInner(text, line, t); }
  }

  /** NAMES WHAT IS UNSUPPORTED: the reason names every matched check that supports no answer, and why. */
  lemma FlaggedReasonNames(e: Engine, ms: seq<Mapping>, q: Query, m: Mapping)
    requires !Restricted(e, q.question) && m in Matched(e.text, ms, q.controlID, q.question) && !Conclusive(m, q.checks)
    ensures DecideSpec(e, ms, q).answer == "" && NamesCheck(DecideSpec(e, ms, q).reason, m, q.checks)
  {
    var matched := Matched(e.text, ms, q.controlID, q.question);
    var t := TallyOf(matched, q.checks);
    ErrorLineIn(matched, q.checks, m);
    ErrorLineNames(m, q.checks);
    JoinContains(t.errorsOut, "; ", ErrorLine(m, q.checks));
    ReasonHas(t, Compound(e, q.question), ErrorLine(m, q.checks));
    NamesCheckMore(DecideSpec(e, ms, q).reason, ErrorLine(m, q.checks), m, q.checks);
  }

  lemma ReasonHas(t: Tally, compound: bool, line: string)
    requires Contains(Join(t.errorsOut, "; "), line)
    ensures Contains(ErrorReason(t, compound), line)
  {
    ContainsMiddle("latest verdict cannot support an answer: ", Join(t.errorsOut, "; "),
                   if compound then "; policy/procedure documentation also requires human input" else "", line);
  }

  // ---- where and when ----

  lemma ByAcross()
    ensures " by ZeroDock across " == " by ZeroDock " + "across "
  {
  }

  lemma TailParts(verb: string, signed: string, across: string, coverage: string, on: string, date: string, dot: string)
    ensures
      var tail := verb + (signed + across) + coverage + on + date + dot;
      Contains(tail, date) && Contains(tail, across + coverage + on)
  {
    ContainsItself(date);
    ContainsItself(across + coverage + on);
    ContainsMiddle(verb + (signed + across) + coverage + on, date, dot, date);
    ContainsMiddle(verb + signed, across + coverage + on, date + dot, across + coverage + on);
    assert verb + (signed + across) + coverage + on + date + dot == (verb + signed) + (across + coverage + on) + (date + dot);
  }

  lemma TailSays(verb: string, q: Query)
    ensures Contains(Tail(verb, q), q.date)
    ensures Contains(Tail(verb, q), "across " + (if q.coverage == "" then "account coverage unavailable" else q.coverage) + " on ")
  {
    ByAcross();
    TailParts(verb, " by ZeroDock ", "across ", CoverageText(q), " on ", q.date, ".");
  }

  lemma TailKept(lead: string, claims: string, tail: string, end: string, t: string)
    requires Contains(tail, t)
    ensures Contains(lead + (claims + tail) + end, t) && Contains(lead + (claims + tail), t)
  {
    ContainsMiddle(claims, tail, "", t);
    assert claims + tail + "" == claims + tail;
    ContainsMiddle(lead, claims + tail, end, t);
    ContainsMiddle(lead, claims + tail, "", t);
    assert lead + (claims + tail) + "" == lead + (claims + tail);
  }

  lemma AbsentKeeps(a: Alphabet, q: Query, t: Tally, compound: bool, s: string)
    requires Contains(Tail(". Attested", q), s)
    ensures Contains(AbsentAnswer(a, q, t, compound), s)
  {
    TailKept(if compound then "Partial — " else "Not applicable — ", Join(Unique(a, t.notInUse), "; "), Tail(". Attested", q), HUMAN, s);
  }

  lemma VerifiedKeeps(a: Alphabet, q: Query, t: Tally, compound: bool, s: string)
    requires Contains(Tail(". Verified", q), s)
    ensures Contains(VerifiedAnswer(a, q, t, compound), s)
  {
    TailKept(if compound then "Partial — " + IN_EFFECT else "Yes — ", Join(Unique(a, t.statements + t.notInUse), "; "),
             Tail(". Verified", q), HUMAN, s);
  }

  lemma ConcludedKeeps(a: Alphabet, q: Query, n: nat, t: Tally, compound: bool, s: string)
    requires t.errorsOut == [] && t.failures == []
    requires Contains(Tail(". Attested", q), s) && Contains(Tail(". Verified", q), s)
    ensures Contains(AnswerOf(a, q, n, t, compound), s)
  {
    if t.notInUseCount == n { AbsentKeeps(a, q, t, compound, s); } else { VerifiedKeeps(a, q, t, compound, s); }
  }

  /** WHERE AND WHEN: an answer, full or partial, says which accounts it covers and of which day it is. */
  lemma AnswerSaysWhere(e: Engine, ms: seq<Mapping>, q: Query)
    ensures
      var d := DecideSpec(e, ms, q);
      d.outcome == Answered || d.outcome == Partial ==>
        && Contains(d.answer, q.date)
        && Contains(d.answer, "across " + (if q.coverage == "" then "account coverage unavailable" else q.coverage) + " on ")
  {
    var matched := Matched(e.text, ms, q.controlID, q.question);
    OutcomeIff(e, ms, q);
    if !Restricted(e, q.question) && Supported(matched, q.checks) {
      var t := TallyOf(matched, q.checks);
      SupportedTally(matched, q.checks);
      TailSays(". Attested", q);
      TailSays(". Verified", q);
      ConcludedKeeps(e.text, q, |matched|, t, Compound(e, q.question), q.date);
      ConcludedKeeps(e.text, q, |matched|, t, Compound(e, q.question),
                     "across " + (if q.coverage == "" then "account coverage unavailable" else q.coverage) + " on ");
    }
  }

  lemma SupportedTally(matched: seq<Mapping>, checks: map<string, CheckOutput>)
    requires Supported(matched, checks)
    ensures TallyOf(matched, checks).errorsOut == [] && TallyOf(matched, checks).failures == []
  {
    TallyMeans(matched, checks);
    SupportedMeans(matched, checks);
  }

  // ---- the part for a person ----

  lemma AnswerAsks(a: Alphabet, q: Query, n: nat, t: Tally)
    ensures AnswerOf(a, q, n, t, true) == "" || Contains(AnswerOf(a, q, n, t, true), " Policy/procedure documentation requires human input.")
  {
    if t.failures != [] {
      LeadOf("Technical portion would answer No — " + Concise(a, t.failures) + ", fix before submitting.", HUMAN);
      FailingShape(Concise(a, t.failures));
    } else if t.notInUseCount == n {
      LeadOf("Partial — " + (Join(Unique(a, t.notInUse), "; ") + Tail(". Attested", q)), HUMAN);
    } else {
      LeadOf("Partial — " + IN_EFFECT + (Join(Unique(a, t.statements + t.notInUse), "; ") + Tail(". Verified", q)), HUMAN);
    }
  }

  lemma FailingShape(concise: string)
    ensures "Technical portion " + ("would answer No — " + concise + ", fix before submitting.")
            == "Technical portion would answer No — " + concise + ", fix before submitting."
  {
    assert "Technical portion would answer No — " == "Technical portion " + "would answer No — ";
  }

  /** A COMPOUND QUESTION always leaves something to a person, and every answer to it says so. */
  lemma CompoundAsks(e: Engine, ms: seq<Mapping>, q: Query)
    requires Compound(e, q.question) && Matched(e.text, ms, q.controlID, q.question) != []
    ensures
      var d := DecideSpec(e, ms, q);
      d.answer == "" || Contains(d.answer, " Policy/procedure documentation requires human input.")
  {
    var matched := Matched(e.text, ms, q.controlID, q.question);
    AnswerAsks(e.text, q, |matched|, TallyOf(matched, q.checks));
  }

  // ---- what a decision is about ----

  /** Some mapping carries the control ID. */
  ghost predicate Exact(a: Alphabet, ms: seq<Mapping>, controlID: string) {
    NormalizeControlID(a, controlID) != "" && exists m :: m in ms && Carries(a, m, controlID)
  }

  lemma ExactFirst(a: Alphabet, ms: seq<Mapping>, controlID: string, question: string)
    ensures MethodUsed(a, ms, controlID) == (if Exact(a, ms, controlID) then MatchExact else MatchKeyword)
    ensures Exact(a, ms, controlID) ==>
      forall m :: m in Matched(a, ms, controlID, question) <==> m in ms && Carries(a, m, controlID)
    ensures !Exact(a, ms, controlID) ==> Matched(a, ms, controlID, question) == KeywordSpec(a, ms, question)
  {
    var exact := ExactSpec(a, ms, controlID);
    forall m ensures m in exact <==> m in ms && NormalizeControlID(a, controlID) != "" && Carries(a, m, controlID) {
      ExactIff(a, ms, controlID, m);
    }
    if exact != [] { assert exact[0] in exact; }
  }

  lemma ChecksOf(matched: seq<Mapping>, id: string)
    ensures id in CheckIDs(matched) <==> exists m :: m in matched && m.checkID == id
  {
    assert id in CheckIDs(matched) <==> id in Elems(CheckIDs(matched));
  }

  /** MATCHED: the mappings that carry the control ID, or else those the keywords select, are matched. The decision
      lists exactly their checks in ascending order and says with which confidence; policy is what a compound
      question is restricted as. */
  lemma MatchedSays(e: Engine, ms: seq<Mapping>, q: Query)
    requires !Restricted(e, q.question) && Matched(e.text, ms, q.controlID, q.question) != []
    ensures
      var d, exact := DecideSpec(e, ms, q), Exact(e.text, ms, q.controlID);
      && d.controlID == q.controlID
      && d.matchMethod == (if exact then MatchExact else MatchKeyword)
      && d.confidence == (if exact then "High — exact control ID" else "Medium — keyword match")
      && d.restrictedAs == (if Compound(e, q.question) then "policy" else "")
      && Ascending(GoLess, d.checkIDs)
      && forall id :: id in d.checkIDs <==> exists m ::
           (if exact then m in ms && Carries(e.text, m, q.controlID) else m in KeywordSpec(e.text, ms, q.question)) && m.checkID == id
  {
    var matched := Matched(e.text, ms, q.controlID, q.question);
    ExactFirst(e.text, ms, q.controlID, q.question);
    forall id ensures id in CheckIDs(matched) <==> exists m :: m in matched && m.checkID == id { ChecksOf(matched, id); }
  }

  /** The text is the topic, written with spaces for underscores, and the rest. */
  predicate NamesTopic(text: string, topic: string, rest: string) {
    && |topic| <= |text| && text[|topic|..] == rest
    && forall i | 0 <= i < |topic| :: text[i] == if topic[i] == '_' then ' ' else topic[i]
  }

  lemma {:induction false} SpacesAre(s: string)
    ensures NamesTopic(Spaces(s), s, "")
  {
    if s != "" { SpacesAre(s[1..]); }
  }

  lemma RestrictedText(e: Engine, q: Query, topic: string, phrase: string)
    ensures NamesTopic(RestrictedDecision(e, q, topic, phrase).reason, topic,
                       " question contains " + Quoted(e, phrase) + "; ZeroDock never auto-answers this category")
  {
    var rest := " question contains " + Quoted(e, phrase) + "; ZeroDock never auto-answers this category";
    SpacesAre(topic);
    Regroup(Spaces(topic), " question contains ", Quoted(e, phrase), "; ZeroDock never auto-answers this category");
    assert RestrictedDecision(e, q, topic, phrase).reason == Spaces(topic) + rest;
  }

  lemma Regroup(x: string, y: string, z: string, w: string)
    ensures x + (y + z + w) == x + y + z + w
  {
  }

  /** FOR A PERSON: a restricted question is named by its topic and the phrase found in it; an unmatched one by the
      evidence gap, if there is one. */
  lemma PersonReason(e: Engine, ms: seq<Mapping>, q: Query)
    requires Restricted(e, q.question) || Matched(e.text, ms, q.controlID, q.question) == []
    ensures
      var d, gap := DecideSpec(e, ms, q), GapSpec(e.text, q.question, e.config.evidenceGaps);
      && d.controlID == q.controlID
      && if Restricted(e, q.question) then
           var (topic, phrase) := TopicSpec(e.config, e.text, q.question);
           && d.restrictedAs == topic && d.confidence == "None — restricted topic"
           && NamesTopic(d.reason, topic, " question contains " + Quoted(e, phrase) + "; ZeroDock never auto-answers this category")
         else
           && d.restrictedAs == "" && d.matchMethod == MatchUnmatched
           && d.reason == (if gap != "" then gap else "no trustworthy control-ID or keyword match")
           && d.confidence == (if gap != "" then "None — evidence gap" else "None — unmatched")
  {
    if Restricted(e, q.question) {
      var (topic, phrase) := TopicSpec(e.config, e.text, q.question);
      RestrictedText(e, q, topic, phrase);
    }
  }
}
