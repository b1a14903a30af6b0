/** internal/questionnaire/matcher.go: which mappings a question matches. */
module Matcher {
  import opened Sorting
  import opened Text
  import opened QuestionnaireConfig

  /** The text mentions the phrase. */
  predicate Mentions(a: Alphabet, text: string, phrase: string) {
    ContainsPhrase(NormalizeText(a, text), NormalizeText(a, phrase))
  }

  // ---- control IDs ----

  predicate IsControlChar(c: char) { 'A' <= c <= 'Z' || '0' <= c <= '9' || c == '.' || c == '-' }

  function KeepControl(s: string): string {
    if s == "" then "" else (if IsControlChar(s[0]) then [s[0]] else "") + KeepControl(s[1..])
  }

  function NormalizeControlID(a: Alphabet, s: string): string { KeepControl(Map(a.upper, Trim(a, s))) }

  function IDs(a: Alphabet, ids: seq<string>): set<string> {
    set id | id in ids :: NormalizeControlID(a, id)
  }

  predicate MapsTo(a: Alphabet, m: Mapping, wanted: string) {
    wanted in IDs(a, m.caiqIDs + m.soc2IDs + m.isoIDs)
  }

  /** The mappings kept by a test, in order. */
  function Select(ms: seq<Mapping>, keep: Mapping -> bool): seq<Mapping> {
    if ms == [] then []
    else
      var n := |ms| - 1;
      if keep(ms[n]) then Select(ms[..n], keep) + [ms[n]] else Select(ms[..n], keep)
  }

  lemma SelectSnoc(ms: seq<Mapping>, i: nat, keep: Mapping -> bool)
    requires i < |ms|
    ensures Select(ms[..i + 1], keep) == if keep(ms[i]) then Select(ms[..i], keep) + [ms[i]] else Select(ms[..i], keep)
  {
    assert ms[..i + 1][..i] == ms[..i];
  }

  lemma {:induction false} SelectMember(ms: seq<Mapping>, keep: Mapping -> bool)
    ensures forall m :: m in Select(ms, keep) <==> m in ms && keep(m)
  {
    if ms != [] {
      SelectMember(ms[..|ms| - 1], keep);
      assert ms == ms[..|ms| - 1] + [ms[|ms| - 1]];
    }
  }

  lemma {:induction false} SelectNone(ms: seq<Mapping>, keep: Mapping -> bool)
    requires forall m | m in ms :: !keep(m)
    ensures Select(ms, keep) == []
  {
    if ms != [] { SelectNone(ms[..|ms| - 1], keep); }
  }

  ghost function ExactSpec(a: Alphabet, ms: seq<Mapping>, rawID: string): seq<Mapping> {
    var wanted := NormalizeControlID(a, rawID);
    if wanted == "" then [] else Select(ms, m => MapsTo(a, m, wanted))
  }

  method HasID(a: Alphabet, m: Mapping, wanted: string) returns (hit: bool)
    ensures hit <==> MapsTo(a, m, wanted)
  {
    var ids := m.caiqIDs + m.soc2IDs + m.isoIDs;
    for j := 0 to |ids|
      invariant forall k | 0 <= k < j :: NormalizeControlID(a, ids[k]) != wanted
    {
      assert ids[j] in ids;
      if NormalizeControlID(a, ids[j]) == wanted { return true; }
    }
    return false;
  }

  method ExactMatches(a: Alphabet, ms: seq<Mapping>, rawID: string) returns (found: seq<Mapping>)
    ensures found == ExactSpec(a, ms, rawID)
  {
    var wanted := NormalizeControlID(a, rawID);
    found := [];
    if wanted == "" { return; }
    ghost var keep := (m: Mapping) => MapsTo(a, m, wanted);
    for i := 0 to |ms|
      invariant found == Select(ms[..i], keep)
    {
      SelectSnoc(ms, i, keep);
      var hit := HasID(a, ms[i], wanted);
      if hit { found := found + [ms[i]]; }
    }
    assert ms[..|ms|] == ms;
  }

  // ---- keywords ----

  predicate GroupMatches(a: Alphabet, question: string, group: seq<string>) {
    group != [] && forall k | k in group :: Mentions(a, question, k)
  }

  /** The size of the largest fully matched keyword group; 0 when there is none. */
  function Score(a: Alphabet, question: string, groups: Groups): nat {
    if groups == [] then 0
    else
      var n := |groups| - 1;
      var rest := Score(a, question, groups[..n]);
      if GroupMatches(a, question, groups[n]) && |groups[n]| > rest then |groups[n]| else rest
  }

  lemma {:induction false} ScoreMeans(a: Alphabet, question: string, groups: Groups)
    ensures
      var s := Score(a, question, groups);
      && (forall g | g in groups && GroupMatches(a, question, g) :: 0 < |g| <= s)
      && (s > 0 ==> exists g :: g in groups && GroupMatches(a, question, g) && |g| == s)
  {
    if groups != [] {
      var n := |groups| - 1;
      ScoreMeans(a, question, groups[..n]);
      assert groups == groups[..n] + [groups[n]];
    }
  }

  method CountMatches(a: Alphabet, question: string, group: seq<string>) returns (n: nat)
    ensures n <= |group|
    ensures n == |group| <==> forall k | k in group :: Mentions(a, question, k)
  {
    n := 0;
    for i := 0 to |group|
      invariant n <= i
      invariant n == i <==> forall j | 0 <= j < i :: Mentions(a, question, group[j])
    {
      if Mentions(a, question, group[i]) { n := n + 1; }
    }
  }

  method ScoreOf(a: Alphabet, question: string, groups: Groups) returns (score: nat)
    ensures score == Score(a, question, groups)
  {
    score := 0;
    for i := 0 to |groups|
      invariant score == Score(a, question, groups[..i])
    {
      assert groups[..i + 1][..i] == groups[..i];
      var groupScore := CountMatches(a, question, groups[i]);
      if groupScore == |groups[i]| && groupScore > score { score := groupScore; }
    }
    assert groups[..|groups|] == groups;
  }

  function MappingScore(a: Alphabet, question: string, m: Mapping): nat { Score(a, question, m.keywordGroups) }

  function Best(a: Alphabet, question: string, ms: seq<Mapping>): nat {
    if ms == [] then 0
    else
      var n := |ms| - 1;
      var rest, s := Best(a, question, ms[..n]), MappingScore(a, question, ms[n]);
      if s > rest then s else rest
  }

  lemma {:induction false} BestMeans(a: Alphabet, question: string, ms: seq<Mapping>)
    ensures
      var b := Best(a, question, ms);
      && (forall m | m in ms :: MappingScore(a, question, m) <= b)
      && (b > 0 ==> exists m :: m in ms && MappingScore(a, question, m) == b)
  {
    if ms != [] {
      var n := |ms| - 1;
      BestMeans(a, question, ms[..n]);
      assert ms == ms[..n] + [ms[n]];
    }
  }

  predicate InAll(a: Alphabet, ms: seq<Mapping>, id: string) { forall m | m in ms :: id in IDs(a, m.caiqIDs) }

  /** One normalised CAIQ ID belongs to every mapping. */
  ghost predicate ShareID(a: Alphabet, ms: seq<Mapping>) { exists id :: InAll(a, ms, id) }

  function Tied(a: Alphabet, ms: seq<Mapping>, question: string, score: nat): seq<Mapping> {
    if score == 0 then [] else Select(ms, m => MappingScore(a, question, m) == score)
  }

  /** The mappings with the best positive score; nothing when several tie without a common ID. */
  ghost function KeywordSpec(a: Alphabet, ms: seq<Mapping>, question: string): seq<Mapping> {
    var tied := Tied(a, ms, question, Best(a, question, ms));
    if |tied| > 1 && !ShareID(a, tied) then [] else tied
  }

  /** best is the best score so far and found the mappings that have it. */
  ghost predicate BestOf(a: Alphabet, question: string, ms: seq<Mapping>, best: nat, found: seq<Mapping>) {
    best == Best(a, question, ms) && found == Tied(a, ms, question, best)
  }

  lemma BestSnoc(a: Alphabet, question: string, ms: seq<Mapping>, m: Mapping, best: nat, found: seq<Mapping>)
    requires BestOf(a, question, ms, best, found)
    ensures
      var s := MappingScore(a, question, m);
      if s > best then BestOf(a, question, ms + [m], s, [m])
      else if 0 < s == best then BestOf(a, question, ms + [m], best, found + [m])
      else BestOf(a, question, ms + [m], best, found)
  {
    assert (ms + [m])[..|ms|] == ms;
    var s := MappingScore(a, question, m);
    BestMeans(a, question, ms);
    if s > best { SelectNone(ms, n => MappingScore(a, question, n) == s); }
  }

  /** The same of the first i mappings. */
  ghost predicate BestUpTo(a: Alphabet, question: string, ms: seq<Mapping>, i: nat, best: nat, found: seq<Mapping>) {
    i <= |ms| && BestOf(a, question, ms[..i], best, found)
  }

  lemma BestUpToSnoc(a: Alphabet, question: string, ms: seq<Mapping>, i: nat, best: nat, found: seq<Mapping>)
    requires i < |ms| && BestOf(a, question, ms[..i] + [ms[i]], best, found)
    ensures BestUpTo(a, question, ms, i + 1, best, found)
  {
    assert ms[..i + 1] == ms[..i] + [ms[i]];
  }

  /** One mapping of the loop. */
  method TakeMapping(a: Alphabet, question: string, ms: seq<Mapping>, i: nat, best: nat, found: seq<Mapping>)
      returns (best': nat, found': seq<Mapping>)
    requires i < |ms| && BestUpTo(a, question, ms, i, best, found)
    ensures BestUpTo(a, question, ms, i + 1, best', found')
  {
    BestSnoc(a, question, ms[..i], ms[i], best, found);
    var score := ScoreOf(a, question, ms[i].keywordGroups);
    best', found' := best, found;
    if score > best {
      best', found' := score, [ms[i]];
    } else if score == best && score != 0 {
      found' := found + [ms[i]];
    }
    BestUpToSnoc(a, question, ms, i, best', found');
  }

  method BestMappings(a: Alphabet, ms: seq<Mapping>, question: string) returns (best: nat, found: seq<Mapping>)
    ensures BestOf(a, question, ms, best, found)
  {
    best, found := 0, [];
    for i := 0 to |ms|
      invariant BestUpTo(a, question, ms, i, best, found)
    {
      best, found := TakeMapping(a, question, ms, i, best, found);
    }
    assert ms[..|ms|] == ms;
  }

  method KeywordMatches(a: Alphabet, ms: seq<Mapping>, question: string) returns (r: seq<Mapping>)
    ensures r == KeywordSpec(a, ms, question)
  {
    var best, found := BestMappings(a, ms, question);
    if |found| > 1 {
      var shared := ShareCAIQControl(a, found);
      if !shared { return []; }
    }
    return found;
  }

  method CommonIDs(a: Alphabet, shared: set<string>, ids: seq<string>) returns (next: set<string>)
    ensures next == shared * IDs(a, ids)
  {
    next := {};
    for j := 0 to |ids|
      invariant next == shared * IDs(a, ids[..j])
    {
      var normalized := NormalizeControlID(a, ids[j]);
      assert ids[..j + 1] == ids[..j] + [ids[j]];
      if normalized in shared { next := next + {normalized}; }
    }
    assert ids[..|ids|] == ids;
  }

  method NormalizedIDs(a: Alphabet, ids: seq<string>) returns (r: set<string>)
    ensures r == IDs(a, ids)
  {
    r := {};
    for j := 0 to |ids|
      invariant r == IDs(a, ids[..j])
    {
      r := r + {NormalizeControlID(a, ids[j])};
    }
    assert ids[..|ids|] == ids;
  }

  method ShareCAIQControl(a: Alphabet, ms: seq<Mapping>) returns (b: bool)
    ensures b <==> if |ms| < 2 then |ms| == 1 else ShareID(a, ms)
  {
    if |ms| < 2 { return |ms| == 1; }
    var shared := NormalizedIDs(a, ms[0].caiqIDs);
    for i := 1 to |ms|
      invariant forall id :: id in shared <==> forall k | 0 <= k < i :: id in IDs(a, ms[k].caiqIDs)
    {
      shared := CommonIDs(a, shared, ms[i].caiqIDs);
    }
    b := shared != {};
    forall id ensures id in shared <==> InAll(a, ms, id) {
      if id !in shared {
        var k :| 0 <= k < |ms| && id !in IDs(a, ms[k].caiqIDs);
        assert ms[k] in ms;
      }
    }
    if b { var id :| id in shared; assert InAll(a, ms, id); }
  }

  ghost predicate HasBestGroup(a: Alphabet, ms: seq<Mapping>, question: string, m: Mapping) {
    exists g :: g in m.keywordGroups && IsBestGroup(a, ms, question, g)
  }

  /** The group matches fully, and no matched group of any mapping is larger. */
  ghost predicate IsBestGroup(a: Alphabet, ms: seq<Mapping>, question: string, g: seq<string>) {
    GroupMatches(a, question, g)
    && forall n, h | n in ms && h in n.keywordGroups && GroupMatches(a, question, h) :: |h| <= |g|
  }

  lemma BestGroupIffTied(a: Alphabet, ms: seq<Mapping>, question: string, m: Mapping)
    requires m in ms
    ensures m in Tied(a, ms, question, Best(a, question, ms)) <==> HasBestGroup(a, ms, question, m)
  {
    var b := Best(a, question, ms);
    BestMeans(a, question, ms);
    ScoreMeans(a, question, m.keywordGroups);
    SelectMember(ms, (n: Mapping) => MappingScore(a, question, n) == b);
    if b > 0 {
      var top :| top in ms && MappingScore(a, question, top) == b;
      ScoreMeans(a, question, top.keywordGroups);
      var g :| g in top.keywordGroups && GroupMatches(a, question, g) && |g| == b;
      forall n, h | n in ms && h in n.keywordGroups && GroupMatches(a, question, h) ensures |h| <= b {
        ScoreMeans(a, question, n.keywordGroups);
      }
    } else {
      assert MappingScore(a, question, m) == 0;
    }
  }

  /** Two mappings, at different places, hold a best group. */
  ghost predicate Several(a: Alphabet, ms: seq<Mapping>, question: string) {
    exists i, j | 0 <= i < j < |ms| :: HasBestGroup(a, ms, question, ms[i]) && HasBestGroup(a, ms, question, ms[j])
  }

  /** Every mapping that holds a best group lists the CAIQ ID. */
  ghost predicate Unites(a: Alphabet, ms: seq<Mapping>, question: string, id: string) {
    forall n | n in ms && HasBestGroup(a, ms, question, n) :: exists raw :: raw in n.caiqIDs && NormalizeControlID(a, raw) == id
  }

  predicate TwoKept(ms: seq<Mapping>, keep: Mapping -> bool) { exists i, j | 0 <= i < j < |ms| :: keep(ms[i]) && keep(ms[j]) }

  lemma {:induction false} SelectTwo(ms: seq<Mapping>, keep: Mapping -> bool)
    ensures |Select(ms, keep)| > 1 <==> TwoKept(ms, keep)
  {
    if ms != [] {
      var n := |ms| - 1;
      SelectTwo(ms[..n], keep);
      SelectMember(ms[..n], keep);
      var rest := Select(ms[..n], keep);
      if |Select(ms, keep)| > 1 && |rest| == 1 {
        assert rest[0] in ms[..n];
        var i :| 0 <= i < n && ms[i] == rest[0];
        assert keep(ms[i]) && keep(ms[n]);
      }
      if TwoKept(ms, keep) {
        var i, j :| 0 <= i < j < |ms| && keep(ms[i]) && keep(ms[j]);
        assert ms[..n][i] == ms[i] && ms[i] in rest;
        if j < n { assert ms[..n][j] == ms[j]; }
      }
      if TwoKept(ms[..n], keep) {
        var i, j :| 0 <= i < j < n && keep(ms[..n][i]) && keep(ms[..n][j]);
        assert keep(ms[i]) && keep(ms[j]);
      }
    }
  }

  lemma SharedIff(a: Alphabet, ms: seq<Mapping>, top: seq<Mapping>, question: string)
    requires forall n :: n in top <==> n in ms && HasBestGroup(a, ms, question, n)
    ensures ShareID(a, top) <==> exists id :: Unites(a, ms, question, id)
  {
    forall id ensures InAll(a, top, id) <==> Unites(a, ms, question, id) {
      forall n: Mapping ensures id in IDs(a, n.caiqIDs) <==> exists raw :: raw in n.caiqIDs && NormalizeControlID(a, raw) == id {}
    }
    if ShareID(a, top) { var id :| InAll(a, top, id); assert Unites(a, ms, question, id); }
    if id :| Unites(a, ms, question, id) { assert InAll(a, top, id); }
  }

  lemma SeveralIff(a: Alphabet, ms: seq<Mapping>, question: string, keep: Mapping -> bool)
    requires forall n | n in ms :: keep(n) <==> HasBestGroup(a, ms, question, n)
    ensures |Select(ms, keep)| > 1 <==> Several(a, ms, question)
  {
    SelectTwo(ms, keep);
    if TwoKept(ms, keep) {
      var i, j :| 0 <= i < j < |ms| && keep(ms[i]) && keep(ms[j]);
      assert ms[i] in ms && ms[j] in ms;
    }
    if Several(a, ms, question) {
      var i, j :| 0 <= i < j < |ms| && HasBestGroup(a, ms, question, ms[i]) && HasBestGroup(a, ms, question, ms[j]);
      assert ms[i] in ms && ms[j] in ms;
    }
  }

  /** The mappings tied at the top are those that hold a best group. */
  lemma TopIs(a: Alphabet, ms: seq<Mapping>, question: string) returns (top: seq<Mapping>)
    ensures top == Tied(a, ms, question, Best(a, question, ms))
    ensures forall n :: n in top <==> n in ms && HasBestGroup(a, ms, question, n)
    ensures |top| > 1 <==> Several(a, ms, question)
  {
    var b := Best(a, question, ms);
    top := Tied(a, ms, question, b);
    forall n | n in ms ensures n in top <==> HasBestGroup(a, ms, question, n) {
      BestGroupIffTied(a, ms, question, n);
    }
    SelectMember(ms, (n: Mapping) => MappingScore(a, question, n) == b);
    SeveralIff(a, ms, question, (n: Mapping) => b > 0 && MappingScore(a, question, n) == b);
    TiedIsSelect(a, ms, question, b);
  }

  lemma {:induction false} TiedIsSelect(a: Alphabet, ms: seq<Mapping>, question: string, score: nat)
    ensures Tied(a, ms, question, score) == Select(ms, (n: Mapping) => score > 0 && MappingScore(a, question, n) == score)
  {
    var keep := (n: Mapping) => score > 0 && MappingScore(a, question, n) == score;
    if score == 0 { SelectNone(ms, keep); } else { SelectSame(ms, (n: Mapping) => MappingScore(a, question, n) == score, keep); }
  }

  lemma {:induction false} SelectSame(ms: seq<Mapping>, p: Mapping -> bool, q: Mapping -> bool)
    requires forall m :: p(m) <==> q(m)
    ensures Select(ms, p) == Select(ms, q)
  {
    if ms != [] { SelectSame(ms[..|ms| - 1], p, q); }
  }

  /** ARGMAX: a nonempty answer is exactly the mappings holding a best group. It is empty exactly
      when there are none, or several that no CAIQ ID unites. */
  lemma KeywordMatchesAreBest(a: Alphabet, ms: seq<Mapping>, question: string, m: Mapping)
    ensures
      var r := KeywordSpec(a, ms, question);
      && (r == [] <==>
            || (forall n | n in ms :: !HasBestGroup(a, ms, question, n))
            || (Several(a, ms, question) && forall id :: !Unites(a, ms, question, id)))
      && (r != [] ==> (m in r <==> m in ms && HasBestGroup(a, ms, question, m)))
  {
    var top := TopIs(a, ms, question);
    SharedIff(a, ms, top, question);
    assert top != [] ==> top[0] in top;
  }

  // ---- topics ----

  predicate MentionsAny(a: Alphabet, text: string, phrases: seq<string>) {
    exists p :: p in phrases && Mentions(a, text, p)
  }

  function FirstMentioned(a: Alphabet, text: string, phrases: seq<string>): (p: string)
    requires MentionsAny(a, text, phrases)
    ensures p in phrases && Mentions(a, text, p)
  {
    if Mentions(a, text, phrases[0]) then phrases[0] else FirstMentioned(a, text, phrases[1..])
  }

  function TopicsIn(c: Config, a: Alphabet, question: string): set<string> {
    set t | t in c.restrictedTopics && MentionsAny(a, question, c.restrictedTopics[t])
  }

  /** The first topic in sorted order with a mentioned phrase, and its first such phrase. */
  ghost function TopicSpec(c: Config, a: Alphabet, question: string): (string, string) {
    var hits := TopicsIn(c, a, question);
    if hits == {} then ("", "")
    else
      var t := GoSorted(hits)[0];
      assert t in Elems(GoSorted(hits));
      (t, FirstMentioned(a, question, c.restrictedTopics[t]))
  }

  lemma FirstOfSorted(hits: set<string>, t: string)
    requires t in hits && forall u | u in hits && u != t :: GoLess(t, u)
    ensures GoSorted(hits) != [] && GoSorted(hits)[0] == t
  {
    var r := GoSorted(hits);
    assert t in Elems(r);
    var i :| 0 <= i < |r| && r[i] == t;
    assert r[0] in Elems(r);
    if i > 0 {
      assert GoLess(r[0], r[i]);
      GoLessWeakOrder();
    }
  }

  method FirstPhrase(a: Alphabet, text: string, phrases: seq<string>) returns (hit: bool, phrase: string)
    ensures hit <==> MentionsAny(a, text, phrases)
    ensures hit ==> phrase == FirstMentioned(a, text, phrases)
  {
    for i := 0 to |phrases|
      invariant MentionsAny(a, text, phrases) <==> MentionsAny(a, text, phrases[i..])
      invariant MentionsAny(a, text, phrases) ==> FirstMentioned(a, text, phrases) == FirstMentioned(a, text, phrases[i..])
    {
      assert phrases[i..] == [phrases[i]] + phrases[i + 1..];
      if Mentions(a, text, phrases[i]) {
        assert phrases[i] in phrases[i..];
        return true, phrases[i];
      }
    }
    return false, "";
  }

  lemma FirstHit(keys: set<string>, hits: set<string>, i: nat)
    requires hits <= keys && i < |GoSorted(keys)| && GoSorted(keys)[i] in hits
    requires forall j | 0 <= j < i :: GoSorted(keys)[j] !in hits
    ensures GoSorted(hits) != [] && GoSorted(hits)[0] == GoSorted(keys)[i]
  {
    var topics := GoSorted(keys);
    forall u | u in hits && u != topics[i] ensures GoLess(topics[i], u) {
      assert u in Elems(topics);
      var j :| 0 <= j < |topics| && topics[j] == u;
    }
    FirstOfSorted(hits, topics[i]);
  }

  method RestrictedTopic(c: Config, a: Alphabet, question: string) returns (topic: string, phrase: string)
    ensures (topic, phrase) == TopicSpec(c, a, question)
  {
    var keys := Keys(c.restrictedTopics);
    var topics := SortStrings(keys);
    for i := 0 to |topics|
      invariant forall j | 0 <= j < i :: topics[j] !in TopicsIn(c, a, question)
    {
      assert topics[i] in Elems(topics);
      var hit, first := FirstPhrase(a, question, c.restrictedTopics[topics[i]]);
      if hit {
        FirstHit(c.restrictedTopics.Keys, TopicsIn(c, a, question), i);
        return topics[i], first;
      }
    }
    assert forall t | t in TopicsIn(c, a, question) :: t in Elems(topics);
    return "", "";
  }

  method HasTechnicalLanguage(c: Config, a: Alphabet, question: string) returns (b: bool)
    ensures b <==> MentionsAny(a, question, c.technicalPhrases)
  {
    var phrase;
    b, phrase := FirstPhrase(a, question, c.technicalPhrases);
  }

  function GapSpec(a: Alphabet, question: string, gaps: seq<EvidenceGap>): string {
    if gaps == [] then ""
    else if Score(a, question, gaps[0].keywordGroups) > 0 then gaps[0].reason
    else GapSpec(a, question, gaps[1..])
  }

  method AnyGroupMatches(a: Alphabet, question: string, groups: Groups) returns (b: bool)
    ensures b <==> Score(a, question, groups) > 0
  {
    ScoreMeans(a, question, groups);
    for j := 0 to |groups|
      invariant forall k | 0 <= k < j :: !GroupMatches(a, question, groups[k])
    {
      var n := CountMatches(a, question, groups[j]);
      if |groups[j]| > 0 && n == |groups[j]| {
        assert groups[j] in groups;
        return true;
      }
    }
    return false;
  }

  method EvidenceGapReason(c: Config, a: Alphabet, question: string) returns (r: string)
    ensures r == GapSpec(a, question, c.evidenceGaps)
  {
    for i := 0 to |c.evidenceGaps|
      invariant GapSpec(a, question, c.evidenceGaps) == GapSpec(a, question, c.evidenceGaps[i..])
    {
      var matched := AnyGroupMatches(a, question, c.evidenceGaps[i].keywordGroups);
      if matched { return c.evidenceGaps[i].reason; }
      assert c.evidenceGaps[i..][1..] == c.evidenceGaps[i + 1..];
    }
    return "";
  }

  // ---- in the question's own terms ----

  /** The group is not empty and all its keywords are mentioned. */
  predicate MentionsAll(a: Alphabet, question: string, group: seq<string>) {
    group != [] && forall i | 0 <= i < |group| :: Mentions(a, question, group[i])
  }

  predicate Fires(a: Alphabet, question: string, gap: EvidenceGap) {
    exists i | 0 <= i < |gap.keywordGroups| :: MentionsAll(a, question, gap.keywordGroups[i])
  }

  lemma FiresIff(a: Alphabet, question: string, gap: EvidenceGap)
    ensures Fires(a, question, gap) <==> Score(a, question, gap.keywordGroups) > 0
  {
    ScoreMeans(a, question, gap.keywordGroups);
    if Score(a, question, gap.keywordGroups) > 0 {
      var g :| g in gap.keywordGroups && GroupMatches(a, question, g);
      var i :| 0 <= i < |gap.keywordGroups| && gap.keywordGroups[i] == g;
      assert MentionsAll(a, question, gap.keywordGroups[i]);
    }
    if Fires(a, question, gap) {
      var i :| 0 <= i < |gap.keywordGroups| && MentionsAll(a, question, gap.keywordGroups[i]);
      var g := gap.keywordGroups[i];
      forall k | k in g ensures Mentions(a, question, k) { var j :| 0 <= j < |g| && g[j] == k; }
      assert g in gap.keywordGroups && GroupMatches(a, question, g);
    }
  }

  /** GAP: the reason is that of the first rule that fires, and there is none exactly when none does. */
  lemma {:induction false} GapIsFirst(a: Alphabet, question: string, gaps: seq<EvidenceGap>)
    ensures (forall j | 0 <= j < |gaps| :: !Fires(a, question, gaps[j])) ==> GapSpec(a, question, gaps) == ""
    ensures forall i | 0 <= i < |gaps| && Fires(a, question, gaps[i]) && (forall j | 0 <= j < i :: !Fires(a, question, gaps[j])) ::
      GapSpec(a, question, gaps) == gaps[i].reason
  {
    if gaps != [] {
      FiresIff(a, question, gaps[0]);
      GapIsFirst(a, question, gaps[1..]);
    }
  }

  /** The mapping carries the control ID, in one of its three frameworks, up to the way IDs are written. */
  ghost predicate Carries(a: Alphabet, m: Mapping, rawID: string) {
    exists id :: (id in m.caiqIDs || id in m.soc2IDs || id in m.isoIDs) && NormalizeControlID(a, id) == NormalizeControlID(a, rawID)
  }

  /** EXACT: a control ID that is not empty when written plainly matches exactly the mappings that carry it. */
  lemma ExactIff(a: Alphabet, ms: seq<Mapping>, rawID: string, m: Mapping)
    ensures m in ExactSpec(a, ms, rawID) <==> m in ms && NormalizeControlID(a, rawID) != "" && Carries(a, m, rawID)
  {
    var wanted := NormalizeControlID(a, rawID);
    SelectMember(ms, n => MapsTo(a, n, wanted));
    var ids := m.caiqIDs + m.soc2IDs + m.isoIDs;
    forall id ensures id in ids <==> id in m.caiqIDs || id in m.soc2IDs || id in m.isoIDs {}
  }

  /** Written plainly: upper-case letters, digits, dots and dashes, the rest dropped where it stands. */
  lemma {:induction false} KeepConcat(x: string, y: string)
    ensures KeepControl(x + y) == KeepControl(x) + KeepControl(y)
  {
    if x == "" {
      assert x + y == y;
    } else {
      KeepConcat(x[1..], y);
      assert (x + y)[1..] == x[1..] + y && (x + y)[0] == x[0];
    }
  }

  lemma KeepOne(c: char)
    ensures KeepControl([c]) == if 'A' <= c <= 'Z' || '0' <= c <= '9' || c in {'.', '-'} then [c] else ""
  {
    assert [c][1..] == "";
  }

  predicate Plain(c: char) { 'A' <= c <= 'Z' || '0' <= c <= '9' || c == '.' || c == '-' }

  lemma {:induction false} KeepPlain(s: string)
    requires forall i | 0 <= i < |s| :: Plain(s[i])
    ensures KeepControl(s) == s
  {
    if s != "" { KeepPlain(s[1..]); }
  }

  /** A trimmed control ID that is plain all over in upper case is compared as it is, in upper case. */
  lemma ControlIDKept(a: Alphabet, s: string)
    requires Trimmed(a, s) && forall i | 0 <= i < |s| :: Plain(Mapped(a.upper, s[i]))
    ensures NormalizeControlID(a, s) == Map(a.upper, s)
  {
    TrimIdempotent(a, s);
    KeepPlain(Map(a.upper, s));
  }

  lemma DropOne(u: string, d: char, v: string)
    requires !Plain(d)
    ensures KeepControl(u + [d] + v) == KeepControl(u + v)
  {
    KeepConcat(u + [d], v);
    KeepConcat(u, [d]);
    KeepConcat(u, v);
    KeepOne(d);
  }

  /** In a trimmed one a character that is not plain in upper case may as well be missing. */
  lemma ControlIDDrops(a: Alphabet, x: string, c: char, y: string)
    requires Trimmed(a, x + [c] + y) && Trimmed(a, x + y) && !Plain(Mapped(a.upper, c))
    ensures NormalizeControlID(a, x + [c] + y) == NormalizeControlID(a, x + y)
  {
    TrimIdempotent(a, x + y);
    TrimIdempotent(a, x + [c] + y);
    MapAround(a.upper, x, c, y);
    assert Map(a.upper, x + y) == Map(a.upper, x) + Map(a.upper, y);
    DropOne(Map(a.upper, x), Mapped(a.upper, c), Map(a.upper, y));
  }

  /** TOPIC: the topic is mentioned, every other mentioned topic sorts after it, and the phrase is the first of its
      phrases that is mentioned. */
  lemma TopicIsFirst(c: Config, a: Alphabet, question: string)
    ensures
      var (topic, phrase) := TopicSpec(c, a, question);
      if TopicsIn(c, a, question) == {} then topic == "" && phrase == ""
      else
        && topic in TopicsIn(c, a, question) && (forall t | t in TopicsIn(c, a, question) && t != topic :: GoLess(topic, t))
        && exists i | 0 <= i < |c.restrictedTopics[topic]| ::
             && c.restrictedTopics[topic][i] == phrase && Mentions(a, question, phrase)
             && forall j | 0 <= j < i :: !Mentions(a, question, c.restrictedTopics[topic][j])
  {
    var hits := TopicsIn(c, a, question);
    if hits != {} {
      var r := GoSorted(hits);
      assert r != [] by { var t :| t in hits; assert t in Elems(r); }
      assert r[0] in Elems(r);
      forall t | t in hits && t != r[0] ensures GoLess(r[0], t) {
        assert t in Elems(r);
        var i :| 0 <= i < |r| && r[i] == t;
      }
      FirstMentionedIsFirst(a, question, c.restrictedTopics[r[0]]);
    }
  }

  lemma {:induction false} FirstMentionedIsFirst(a: Alphabet, text: string, phrases: seq<string>)
    requires MentionsAny(a, text, phrases)
    ensures exists i | 0 <= i < |phrases| ::
      phrases[i] == FirstMentioned(a, text, phrases) && forall j | 0 <= j < i :: !Mentions(a, text, phrases[j])
  {
    if Mentions(a, text, phrases[0]) {
      assert phrases[0] == FirstMentioned(a, text, phrases);
    } else {
      var p :| p in phrases && Mentions(a, text, p);
      assert p in phrases[1..];
      FirstMentionedIsFirst(a, text, phrases[1..]);
      var i :| 0 <= i < |phrases[1..]| && phrases[1..][i] == FirstMentioned(a, text, phrases[1..])
               && forall j | 0 <= j < i :: !Mentions(a, text, phrases[1..][j]);
      assert phrases[i + 1] == FirstMentioned(a, text, phrases);
      forall j | 0 <= j < i + 1 ensures !Mentions(a, text, phrases[j]) {
        assert j > 0 ==> phrases[j] == phrases[1..][j - 1];
      }
    }
  }
}
