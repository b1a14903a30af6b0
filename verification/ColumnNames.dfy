/** internal/questionnaire/document.go: the names the filler gives to columns are names it recognises,
    with any alphabet that knows the ASCII letters. */
module ColumnNames {
  import opened Text
  import opened Document
  import opened SecondPass

  predicate Ascii(a: Alphabet) {
    && (forall c: char | 'a' <= c <= 'z' :: c in a.word && Mapped(a.lower, c) == c)
    && (forall c: char | 'A' <= c <= 'Z' :: Mapped(a.lower, c) == c - 'A' + 'a')
    && Mapped(a.lower, ' ') == ' ' && ' ' !in a.word
  }

  predicate LowerOf(c: char, d: char) {
    if 'A' <= c <= 'Z' then d == c - 'A' + 'a' else c == d && ('a' <= c <= 'z' || c == ' ')
  }

  predicate Lowers(s: string, t: string) { |s| == |t| && forall i | 0 <= i < |s| :: LowerOf(s[i], t[i]) }

  predicate LowerWord(t: string) { t != "" && forall i | 0 <= i < |t| :: 'a' <= t[i] <= 'z' }

  lemma LowersMapped(a: Alphabet, s: string, t: string)
    requires Ascii(a) && Lowers(s, t)
    ensures Map(a.lower, s) == t
  {
    forall i | 0 <= i < |s| ensures Mapped(a.lower, s[i]) == t[i] {
      assert LowerOf(s[i], t[i]);
    }
  }

  lemma LowerWordsAreWords(a: Alphabet, ts: seq<string>)
    requires Ascii(a) && forall i | 0 <= i < |ts| :: LowerWord(ts[i])
    ensures Words(a, ts)
  {
    forall i | 0 <= i < |ts| ensures Word(a, ts[i]) {
      assert LowerWord(ts[i]);
    }
  }

  /** A name whose lower case is words of letters between single spaces normalises to that. */
  lemma NormalForm(a: Alphabet, s: string, ts: seq<string>)
    requires Ascii(a) && Lowers(s, Join(ts, " ")) && forall i | 0 <= i < |ts| :: LowerWord(ts[i])
    ensures NormalizeText(a, s) == Join(ts, " ")
  {
    LowersMapped(a, s, Join(ts, " "));
    LowerWordsAreWords(a, ts);
    FieldsOfJoin(a, ts);
  }

  // ---- headers that do not match ----

  predicate Meets(s: string, marks: set<char>) { exists i | 0 <= i < |s| :: s[i] in marks }

  lemma ContainsMeets(s: string, sub: string, marks: set<char>)
    requires Contains(s, sub) && Meets(sub, marks)
    ensures Meets(s, marks)
  {
    var i :| 0 <= i <= |s| && Occurs(s, sub, i);
    var j :| 0 <= j < |sub| && sub[j] in marks;
    assert s[i + j] == s[i..i + |sub|][j];
  }

  /** A header without any of the marks that each candidate has matches none of them. */
  lemma {:induction false} NoMatch(header: string, candidates: seq<string>, marks: set<char>)
    requires !Meets(header, marks) && forall i | 0 <= i < |candidates| :: Meets(candidates[i], marks)
    ensures !HeaderMatches(header, candidates) && header !in candidates
  {
    if candidates != [] {
      if Contains(header, candidates[0]) { ContainsMeets(header, candidates[0], marks); }
      NoMatch(header, candidates[1..], marks);
    }
  }

  lemma MeetsAt(s: string, marks: set<char>, i: nat)
    requires i < |s| && s[i] in marks
    ensures Meets(s, marks)
  {
  }

  lemma ControlHasTQ()
    ensures forall i | 0 <= i < |CONTROL_HEADERS| :: Meets(CONTROL_HEADERS[i], {'t', 'q'})
  {
    MeetsAt("control id", {'t', 'q'}, 3);
    MeetsAt("ccm control id", {'t', 'q'}, 7);
    MeetsAt("caiq id", {'t', 'q'}, 3);
    MeetsAt("question id", {'t', 'q'}, 0);
    MeetsAt("control identifier", {'t', 'q'}, 3);
  }

  lemma ControlHasNQ()
    ensures forall i | 0 <= i < |CONTROL_HEADERS| :: Meets(CONTROL_HEADERS[i], {'n', 'q'})
  {
    MeetsAt("control id", {'n', 'q'}, 2);
    MeetsAt("ccm control id", {'n', 'q'}, 6);
    MeetsAt("caiq id", {'n', 'q'}, 3);
    MeetsAt("question id", {'n', 'q'}, 0);
    MeetsAt("control identifier", {'n', 'q'}, 2);
  }

  lemma AnswerHasS()
    ensures forall i | 0 <= i < |ANSWER_HEADERS| :: Meets(ANSWER_HEADERS[i], {'s'})
  {
    MeetsAt("answer", {'s'}, 2);
    MeetsAt("response", {'s'}, 2);
    MeetsAt("vendor response", {'s'}, 9);
    MeetsAt("csp caiq answer", {'s'}, 1);
  }

  lemma AnswerHasNQ()
    ensures forall i | 0 <= i < |ANSWER_HEADERS| :: Meets(ANSWER_HEADERS[i], {'n', 'q'})
  {
    MeetsAt("answer", {'n', 'q'}, 1);
    MeetsAt("response", {'n', 'q'}, 5);
    MeetsAt("vendor response", {'n', 'q'}, 2);
    MeetsAt("csp caiq answer", {'n', 'q'}, 7);
  }

  lemma EvidenceHasVM()
    ensures forall i | 0 <= i < |EVIDENCE_HEADERS| :: Meets(EVIDENCE_HEADERS[i], {'v', 'm'})
  {
    forall i | 0 <= i < |EVIDENCE_HEADERS| ensures Meets(EVIDENCE_HEADERS[i], {'v', 'm'}) {
      MeetsAt(EVIDENCE_HEADERS[i], {'v', 'm'}, if i == 3 then 2 else if i == 5 then 5 else 1);
    }
  }

  lemma EvidenceHasNQ()
    ensures forall i | 0 <= i < |EVIDENCE_HEADERS| :: Meets(EVIDENCE_HEADERS[i], {'n', 'q'})
  {
    forall i | 0 <= i < |EVIDENCE_HEADERS| ensures Meets(EVIDENCE_HEADERS[i], {'n', 'q'}) {
      MeetsAt(EVIDENCE_HEADERS[i], {'n', 'q'}, if i <= 3 then 5 else if i == 4 then 7 else 11);
    }
  }

  lemma StatusHasS()
    ensures forall i | 0 <= i < |STATUS_HEADERS| :: Meets(STATUS_HEADERS[i], {'s'})
  {
    MeetsAt("zerodock review status", {'s'}, 16);
    MeetsAt("review status", {'s'}, 7);
    MeetsAt("autofill status", {'s'}, 9);
  }

  /** No question header starts with z. */
  lemma NotAQuestion(header: string)
    requires header != "" && header[0] == 'z'
    ensures header !in QUESTION_HEADERS
  {
  }

  lemma MatchAt(header: string, candidates: seq<string>, k: nat, i: nat)
    requires k < |candidates| && Occurs(header, candidates[k], i)
    ensures HeaderMatches(header, candidates)
  {
    if k > 0 { MatchAt(header, candidates[1..], k - 1, i); }
  }

  // ---- the four names ----

  lemma AnswerHeader(h: string)
    requires h == "zerodock answer"
    ensures KindOfHeader(h) == Answer
  {
    assert !Meets(h, {'t', 'q'});
    ControlHasTQ();
    NoMatch(h, CONTROL_HEADERS, {'t', 'q'});
    NotAQuestion(h);
    assert h[9..9 + 6] == "answer";
    MatchAt(h, ANSWER_HEADERS, 0, 9);
  }

  lemma EvidenceHeader(h: string)
    requires h == "zerodock evidence url"
    ensures KindOfHeader(h) == Evidence
  {
    assert !Meets(h, {'t', 'q'}) && !Meets(h, {'s'});
    ControlHasTQ();
    NoMatch(h, CONTROL_HEADERS, {'t', 'q'});
    NotAQuestion(h);
    AnswerHasS();
    NoMatch(h, ANSWER_HEADERS, {'s'});
    assert h[9..9 + 8] == "evidence";
    MatchAt(h, EVIDENCE_HEADERS, 0, 9);
  }

  lemma StatusMarks(h: string)
    requires h == "zerodock review status"
    ensures !Meets(h, {'n', 'q'})
  {
  }

  lemma StatusHeader(h: string)
    requires h == "zerodock review status"
    ensures KindOfHeader(h) == Review
  {
    StatusMarks(h);
    ControlHasNQ();
    NoMatch(h, CONTROL_HEADERS, {'n', 'q'});
    NotAQuestion(h);
    AnswerHasNQ();
    NoMatch(h, ANSWER_HEADERS, {'n', 'q'});
    EvidenceHasNQ();
    NoMatch(h, EVIDENCE_HEADERS, {'n', 'q'});
    MatchAt(h, STATUS_HEADERS, 0, 0);
  }

  lemma ConfidenceMarks(h: string)
    requires h == "zerodock confidence"
    ensures !Meets(h, {'t', 'q'}) && !Meets(h, {'s'}) && !Meets(h, {'v', 'm'})
  {
  }

  lemma ConfidenceNotEarlier(h: string)
    requires h == "zerodock confidence"
    ensures !HeaderMatches(h, CONTROL_HEADERS) && !HeaderMatches(h, ANSWER_HEADERS)
    ensures !HeaderMatches(h, EVIDENCE_HEADERS) && !HeaderMatches(h, STATUS_HEADERS)
  {
    ConfidenceMarks(h);
    ControlHasTQ();
    NoMatch(h, CONTROL_HEADERS, {'t', 'q'});
    AnswerHasS();
    NoMatch(h, ANSWER_HEADERS, {'s'});
    EvidenceHasVM();
    NoMatch(h, EVIDENCE_HEADERS, {'v', 'm'});
    StatusHasS();
    NoMatch(h, STATUS_HEADERS, {'s'});
  }

  lemma ConfidenceHeader(h: string)
    requires h == "zerodock confidence"
    ensures KindOfHeader(h) == Confident
  {
    ConfidenceNotEarlier(h);
    NotAQuestion(h);
    MatchAt(h, CONFIDENCE_HEADERS, 0, 0);
  }

  /** The product name and one or two words. */
  lemma NameNormal(a: Alphabet, s: string, ts: seq<string>, t: string)
    requires Ascii(a) && Lowers(s, t) && t == Join(ts, " ") && forall i | 0 <= i < |ts| :: LowerWord(ts[i])
    ensures NormalizeText(a, s) == t
  {
    NormalForm(a, s, ts);
  }

  lemma AnswerLowers()
    ensures Lowers("ZeroDock Answer", "zerodock answer")
  {
  }

  lemma AnswerName(a: Alphabet)
    requires Ascii(a)
    ensures KindOf(a, ColumnName(Answer)) == Answer
  {
    var ts := ["zerodock", "answer"];
    AnswerLowers();
    NameNormal(a, "ZeroDock Answer", ts, "zerodock answer");
    AnswerHeader("zerodock answer");
  }

  lemma EvidenceLowers()
    ensures Lowers("ZeroDock Evidence URL", "zerodock evidence url")
  {
  }

  lemma EvidenceName(a: Alphabet)
    requires Ascii(a)
    ensures KindOf(a, ColumnName(Evidence)) == Evidence
  {
    var ts := ["zerodock", "evidence", "url"];
    EvidenceLowers();
    NameNormal(a, "ZeroDock Evidence URL", ts, "zerodock evidence url");
    EvidenceHeader("zerodock evidence url");
  }

  lemma StatusLowers()
    ensures Lowers("ZeroDock Review Status", "zerodock review status")
  {
  }

  lemma StatusName(a: Alphabet)
    requires Ascii(a)
    ensures KindOf(a, ColumnName(Review)) == Review
  {
    var ts := ["zerodock", "review", "status"];
    StatusLowers();
    NameNormal(a, "ZeroDock Review Status", ts, "zerodock review status");
    StatusHeader("zerodock review status");
  }

  lemma ConfidenceLowers()
    ensures Lowers("ZeroDock Confidence", "zerodock confidence")
  {
  }

  lemma ConfidenceName(a: Alphabet)
    requires Ascii(a)
    ensures KindOf(a, ColumnName(Confident)) == Confident
  {
    var ts := ["zerodock", "confidence"];
    ConfidenceLowers();
    NameNormal(a, "ZeroDock Confidence", ts, "zerodock confidence");
    ConfidenceHeader("zerodock confidence");
  }

  lemma AsciiRecognises(a: Alphabet)
    requires Ascii(a)
    ensures NamesRecognised(a)
  {
    AnswerName(a);
    EvidenceName(a);
    StatusName(a);
    ConfidenceName(a);
  }

  // ---- two headers, and the remark the filler leaves ----

  /** Letters are no white space; the dash is no letter and has no case. */
  predicate Ordinary(a: Alphabet) {
    && Ascii(a) && '—' !in a.word && Mapped(a.lower, '—') == '—'
    && forall c: char | 'a' <= c <= 'z' || 'A' <= c <= 'Z' :: c !in a.space
  }

  lemma QuestionKind(a: Alphabet)
    requires Ascii(a)
    ensures NormalizeText(a, "Question") == "question" && KindOf(a, "Question") == Question
  {
    var h := "question";
    assert Lowers("Question", h);
    NameNormal(a, "Question", [h], h);
    assert !Meets(h, {'d'});
    ControlHasD();
    NoMatch(h, CONTROL_HEADERS, {'d'});
    assert QUESTION_HEADERS[0] == h;
  }

  lemma ControlHasD()
    ensures forall i | 0 <= i < |CONTROL_HEADERS| :: Meets(CONTROL_HEADERS[i], {'d'})
  {
    MeetsAt("control id", {'d'}, 9);
    MeetsAt("ccm control id", {'d'}, 13);
    MeetsAt("caiq id", {'d'}, 6);
    MeetsAt("question id", {'d'}, 10);
    MeetsAt("control identifier", {'d'}, 9);
  }

  lemma ControlKind(a: Alphabet)
    requires Ascii(a)
    ensures KindOf(a, "Control ID") == Control
  {
    var h, ts := "control id", ["control", "id"];
    assert Lowers("Control ID", h);
    NameNormal(a, "Control ID", ts, h);
    MatchAt(h, CONTROL_HEADERS, 0, 0);
  }

  lemma ControlHasCQ()
    ensures forall i | 0 <= i < |CONTROL_HEADERS| :: Meets(CONTROL_HEADERS[i], {'c', 'q'})
  {
    MeetsAt("control id", {'c', 'q'}, 0);
    MeetsAt("ccm control id", {'c', 'q'}, 0);
    MeetsAt("caiq id", {'c', 'q'}, 0);
    MeetsAt("question id", {'c', 'q'}, 0);
    MeetsAt("control identifier", {'c', 'q'}, 0);
  }

  lemma PreservedHeader(x: string, y: string, h: string)
    requires x == "needs human" && y == "existing answer preserved" && h == x + " " + y
    ensures KindOfHeader(h) == Answer
  {
    assert !Meets(x, {'c', 'q'}) && !Meets(y, {'c', 'q'});
    ControlHasCQ();
    NoMatch(h, CONTROL_HEADERS, {'c', 'q'});
    assert forall i | 0 <= i < |QUESTION_HEADERS| :: QUESTION_HEADERS[i][0] != 'n';
    assert h !in QUESTION_HEADERS;
    assert h[21..21 + 6] == y[9..9 + 6] == "answer";
    MatchAt(h, ANSWER_HEADERS, 0, 21);
  }

  /** Two phrases around a dash. */
  function Dashed(x: string, y: string): string { x + [' '] + (['—'] + ([' '] + y)) }

  lemma DashedFields(a: Alphabet, ts: seq<string>, us: seq<string>)
    requires Ordinary(a) && Words(a, ts) && Words(a, us)
    ensures Fields(a, Dashed(Join(ts, " "), Join(us, " "))) == ts + us
  {
    var x, y := Join(ts, " "), Join(us, " ");
    FieldsOfJoin(a, ts);
    FieldsOfJoin(a, us);
    FieldsAround(a, x, ' ', ['—'] + ([' '] + y));
    assert (['—'] + ([' '] + y))[1..] == [' '] + y && ([' '] + y)[1..] == y;
  }

  predicate LowerText(s: string) { forall i | 0 <= i < |s| :: 'a' <= s[i] <= 'z' || s[i] == ' ' }

  lemma DashedLower(a: Alphabet, x: string, y: string)
    requires Ordinary(a) && LowerText(x) && LowerText(y)
    ensures Map(a.lower, Dashed(x, y)) == Dashed(x, y)
  {
  }

  lemma DashedNormal(a: Alphabet, ts: seq<string>, us: seq<string>)
    requires Ordinary(a) && LowerText(Join(ts, " ")) && LowerText(Join(us, " "))
    requires forall i | 0 <= i < |ts| :: LowerWord(ts[i])
    requires forall i | 0 <= i < |us| :: LowerWord(us[i])
    ensures NormalizeText(a, Dashed(Join(ts, " "), Join(us, " "))) == Join(ts + us, " ")
  {
    LowerWordsAreWords(a, ts);
    LowerWordsAreWords(a, us);
    DashedLower(a, Join(ts, " "), Join(us, " "));
    DashedFields(a, ts, us);
  }

  lemma JoinTwo(x: string, y: string)
    ensures Join([x, y], " ") == x + " " + y
  {
    assert [x, y][1..] == [y];
  }

  lemma JoinThree(x: string, y: string, z: string)
    ensures Join([x, y, z], " ") == x + " " + (y + " " + z)
  {
    assert [x, y, z][1..] == [y, z];
    JoinTwo(y, z);
  }

  lemma {:induction false} JoinConcat(ts: seq<string>, us: seq<string>)
    requires ts != [] && us != []
    ensures Join(ts + us, " ") == Join(ts, " ") + " " + Join(us, " ")
  {
    if |ts| == 1 {
      assert (ts + us)[1..] == us;
    } else {
      JoinConcat(ts[1..], us);
      assert (ts + us)[1..] == ts[1..] + us;
      assert ts[0] + " " + (Join(ts[1..], " ") + " " + Join(us, " ")) == (ts[0] + " " + Join(ts[1..], " ")) + " " + Join(us, " ");
    }
  }

  lemma PreservedParts(ts: seq<string>, us: seq<string>)
    requires ts == ["needs", "human"] && us == ["existing", "answer", "preserved"]
    ensures Join(ts, " ") == "needs human" && Join(us, " ") == "existing answer preserved"
  {
    JoinTwo("needs", "human");
    JoinThree("existing", "answer", "preserved");
  }

  lemma PreservedWords(ts: seq<string>, us: seq<string>)
    requires ts == ["needs", "human"] && us == ["existing", "answer", "preserved"]
    ensures (forall i | 0 <= i < |ts| :: LowerWord(ts[i])) && forall i | 0 <= i < |us| :: LowerWord(us[i])
  {
    assert LowerWord("needs") && LowerWord("human");
    assert LowerWord("existing") && LowerWord("answer") && LowerWord("preserved");
  }

  lemma DashedIs(x: string, y: string)
    ensures Dashed(x, y) == x + " — " + y
  {
  }

  lemma PreservedLower(x: string, y: string)
    requires x == "needs human" && y == "existing answer preserved"
    ensures LowerText(x) && LowerText(y)
  {
  }

  lemma PreservedKind(a: Alphabet, x: string, y: string)
    requires Ordinary(a) && x == "needs human" && y == "existing answer preserved"
    ensures KindOf(a, Dashed(x, y)) == Answer
  {
    var ts, us := ["needs", "human"], ["existing", "answer", "preserved"];
    PreservedParts(ts, us);
    PreservedWords(ts, us);
    PreservedLower(x, y);
    DashedNormal(a, ts, us);
    JoinConcat(ts, us);
    PreservedHeader(x, y, x + " " + y);
  }

  lemma KeptKind(a: Alphabet)
    requires Ordinary(a)
    ensures KindOf(a, KEPT) == Answer
  {
    PreservedKind(a, "needs human", "existing answer preserved");
    DashedIs("needs human", "existing answer preserved");
  }

  /** A question a row may ask: not blank and no instruction. */
  predicate Plain(a: Alphabet, question: string) { !Blank(a, question) && !IsInstruction(a, Trim(a, question)) }

  lemma {:induction false} TooLong(text: string, phrases: seq<string>)
    requires forall i | 0 <= i < |phrases| :: |phrases[i]| > |text|
    ensures !ContainsOne(text, phrases)
  {
    if phrases != [] { TooLong(text, phrases[1..]); }
  }

  lemma QuestionPlain(a: Alphabet, q: string)
    requires Ordinary(a) && q == "Question"
    ensures Plain(a, q)
  {
    TrimIdempotent(a, q);
    QuestionKind(a);
    TooLong("question", INSTRUCTIONS);
  }

  // ---- which headers are recognised ----

  lemma {:induction false} MatchesIff(header: string, candidates: seq<string>)
    ensures HeaderMatches(header, candidates) <==> exists i | 0 <= i < |candidates| :: Contains(header, candidates[i])
  {
    if candidates != [] {
      MatchesIff(header, candidates[1..]);
      assert Occurs(header, header, 0);
      if i :| 0 <= i < |candidates| && Contains(header, candidates[i]) {
        assert i > 0 ==> candidates[i] == candidates[1..][i - 1];
      }
      if i :| 0 <= i < |candidates[1..]| && Contains(header, candidates[1..][i]) { assert Contains(header, candidates[i + 1]); }
    }
  }

  /** What contains a longer text contains the part of it. */
  lemma ContainsPart(s: string, long: string, lead: string, part: string, tail: string)
    requires Contains(s, long) && long == lead + part + tail
    ensures Contains(s, part)
  {
    var i :| 0 <= i <= |s| && Occurs(s, long, i);
    var mid := s[i..i + |long|];
    forall k | 0 <= k < |part| ensures s[i + |lead| + k] == part[k] { assert mid[|lead| + k] == part[k]; }
    assert s[i + |lead|..i + |lead| + |part|] == part;
    assert Occurs(s, part, i + |lead|);
  }

  lemma ControlMeans(h: string)
    ensures HeaderMatches(h, CONTROL_HEADERS) <==>
      Contains(h, "control id") || Contains(h, "caiq id") || Contains(h, "question id")
  {
    MatchesIff(h, CONTROL_HEADERS);
    var cs := CONTROL_HEADERS;
    assert cs[0] == "control id" && cs[2] == "caiq id" && cs[3] == "question id";
    if Contains(h, cs[1]) { ContainsPart(h, cs[1], "ccm ", "control id", ""); }
    if Contains(h, cs[4]) { ContainsPart(h, cs[4], "", "control id", "entifier"); }
  }

  lemma AnswerMeans(h: string)
    ensures HeaderMatches(h, ANSWER_HEADERS) <==> Contains(h, "answer") || Contains(h, "response")
  {
    MatchesIff(h, ANSWER_HEADERS);
    var cs := ANSWER_HEADERS;
    assert cs[0] == "answer" && cs[1] == "response";
    if Contains(h, cs[2]) { ContainsPart(h, cs[2], "vendor ", "response", ""); }
    if Contains(h, cs[3]) { ContainsPart(h, cs[3], "csp caiq ", "answer", ""); }
  }

  lemma EvidenceShorter(h: string, i: nat)
    requires i < |EVIDENCE_HEADERS| && Contains(h, EVIDENCE_HEADERS[i])
    ensures Contains(h, "evidence") || Contains(h, "comments") || Contains(h, "implementation description")
  {
    if i == 1 { ContainsPart(h, EVIDENCE_HEADERS[1], "", "evidence", " url"); }
    else if i == 2 { ContainsPart(h, EVIDENCE_HEADERS[2], "", "evidence", " link"); }
    else if i == 5 { CspImplementation(h); }
  }

  lemma CspImplementation(h: string)
    requires Contains(h, "csp implementation description")
    ensures Contains(h, "implementation description")
  {
    ContainsPart(h, "csp implementation description", "csp ", "implementation description", "");
  }

  lemma EvidenceMeans(h: string)
    ensures HeaderMatches(h, EVIDENCE_HEADERS) <==>
      Contains(h, "evidence") || Contains(h, "comments") || Contains(h, "implementation description")
  {
    MatchesIff(h, EVIDENCE_HEADERS);
    assert EVIDENCE_HEADERS[0] == "evidence" && EVIDENCE_HEADERS[3] == "comments" && EVIDENCE_HEADERS[4] == "implementation description";
    if i :| 0 <= i < |EVIDENCE_HEADERS| && Contains(h, EVIDENCE_HEADERS[i]) { EvidenceShorter(h, i); }
  }

  lemma ReviewMeans(h: string)
    ensures HeaderMatches(h, STATUS_HEADERS) <==> Contains(h, "review status") || Contains(h, "autofill status")
  {
    MatchesIff(h, STATUS_HEADERS);
    var cs := STATUS_HEADERS;
    assert cs[1] == "review status" && cs[2] == "autofill status";
    if Contains(h, cs[0]) { ContainsPart(h, cs[0], "zerodock ", "review status", ""); }
  }

  lemma ConfidentMeans(h: string)
    ensures HeaderMatches(h, CONFIDENCE_HEADERS) <==>
      Contains(h, "zerodock confidence") || Contains(h, "match confidence") || Contains(h, "autofill confidence")
  {
    MatchesIff(h, CONFIDENCE_HEADERS);
    var cs := CONFIDENCE_HEADERS;
    assert cs[0] == "zerodock confidence" && cs[1] == "match confidence" && cs[2] == "autofill confidence";
  }

  predicate NamesQuestion(h: string) {
    h == "question" || h == "questions" || h == "question text" || h == "assessment question" || h == "consensus assessment question"
    || h == "control specification" || h == "caiq question" || h == "security question" || h == "question requirement"
  }

  /** THE TEST OF A HEADER: few of the phrases it is compared with matter, since most contain a shorter one; an
      earlier test takes precedence. */
  lemma HeaderMeans(h: string)
    ensures KindOfHeader(h) ==
      if Contains(h, "control id") || Contains(h, "caiq id") || Contains(h, "question id") then Control
      else if NamesQuestion(h) then Question
      else if Contains(h, "answer") || Contains(h, "response") then Answer
      else if Contains(h, "evidence") || Contains(h, "comments") || Contains(h, "implementation description") then Evidence
      else if Contains(h, "review status") || Contains(h, "autofill status") then Review
      else if Contains(h, "zerodock confidence") || Contains(h, "match confidence") || Contains(h, "autofill confidence") then Confident
      else Other
  {
    ControlMeans(h);
    AnswerMeans(h);
    EvidenceMeans(h);
    ReviewMeans(h);
    ConfidentMeans(h);
    assert NamesQuestion(h) <==> h in QUESTION_HEADERS;
  }
}
