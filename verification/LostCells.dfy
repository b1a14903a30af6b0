/** internal/questionnaire/document.go: a file whose answers and evidence a second run of the filler
    overwrites. */
module LostCells {
  import opened Text
  import opened QuestionnaireConfig
  import opened Decide
  import opened Document
  import opened ColumnNames

  // ---- scores ----

  lemma LastAt(kinds: seq<Kind>, k: Kind, i: nat)
    requires i < |kinds| && kinds[i] == k && forall j | i < j < |kinds| :: kinds[j] != k
    ensures LastOf(kinds, k) == i
  {
    LastOfMeans(kinds, k);
  }

  predicate OneToFive(col: int) { col < 0 || 1 <= col <= 5 }

  lemma FiveColumns(c: Columns)
    requires DistinctColumns(c) && OneToFive(c.control) && OneToFive(c.question) && OneToFive(c.answer)
    requires OneToFive(c.evidence) && OneToFive(c.status) && OneToFive(c.confidence)
    ensures RowScore(c) <= 5
  {
  }

  lemma NeverFirst(kinds: seq<Kind>, k: Kind)
    requires |kinds| == 6 && kinds[0] == kinds[5]
    ensures OneToFive(LastOf(kinds, k))
  {
    LastOfMeans(kinds, k);
  }

  /** Six cells of which the first and the last are of one kind do not make a full header. */
  lemma SixCells(kinds: seq<Kind>, i: int)
    requires |kinds| == 6 && kinds[0] == kinds[5]
    ensures RowScore(ColumnsOf(kinds, i)) <= 5
  {
    KindsDistinct(kinds, i);
    NeverFirst(kinds, Control);
    NeverFirst(kinds, Question);
    NeverFirst(kinds, Answer);
    NeverFirst(kinds, Evidence);
    NeverFirst(kinds, Review);
    NeverFirst(kinds, Confident);
    FiveColumns(ColumnsOf(kinds, i));
  }

  // ---- the file ----

  /** One cell of each kind. */
  datatype Cells = Cells(control: string, question: string, answer: string, evidence: string, status: string, confidence: string)

  predicate Classifies(kind: string -> Kind, n: Cells) {
    && kind(n.control) == Control && kind(n.question) == Question && kind(n.answer) == Answer
    && kind(n.evidence) == Evidence && kind(n.status) == Review && kind(n.confidence) == Confident
  }

  predicate KindsOf(a: Alphabet, n: Cells) { Classifies(cell => KindOf(a, cell), n) }

  function Header(n: Cells): seq<string> { [n.question, n.confidence, n.status, n.answer, n.evidence] }

  /** A row that looks like a second header: every column but an answer, in other places. */
  function Second(n: Cells): seq<string> {
    [n.question, n.question, n.question, n.status, n.confidence, n.question, n.control, n.evidence]
  }

  /** The filler finds it answered and leaves its two remarks; one of them reads as the name of an answer column. */
  function Remarked(n: Cells): seq<string> {
    [n.question, UNEVALUATED, KEPT, n.status, n.confidence, n.question, n.control, n.evidence]
  }

  /** A row with a question, an answer and evidence. */
  function Row(ask: string, confidence: string, status: string, answer: string, evidence: string): seq<string> {
    [ask, confidence, status, answer, evidence, ask]
  }

  const FIRST := Columns(0, -1, 0, 3, 4, 2, 1)
  const SECOND := Columns(1, 6, 5, 2, 7, 3, 4)

  lemma HeaderKinds(kind: string -> Kind, n: Cells, kinds: seq<Kind>)
    requires Classifies(kind, n) && |kinds| == 5 && forall i | 0 <= i < 5 :: kinds[i] == kind(Header(n)[i])
    ensures ColumnsOf(kinds, 0) == FIRST
  {
    PresentIff(kinds, Control);
    LastAt(kinds, Question, 0);
    LastAt(kinds, Confident, 1);
    LastAt(kinds, Review, 2);
    LastAt(kinds, Answer, 3);
    LastAt(kinds, Evidence, 4);
  }

  lemma SecondKinds(kind: string -> Kind, n: Cells, kinds: seq<Kind>)
    requires Classifies(kind, n) && |kinds| == 8 && forall i | 0 <= i < 8 :: kinds[i] == kind(Second(n)[i])
    ensures RowScore(ColumnsOf(kinds, 1)) == 5
  {
    ScoreCounts(kinds, 1);
    assert kinds == [Question, Question, Question, Review, Confident, Question, Control, Evidence];
    assert kinds[3] == Review && kinds[4] == Confident && kinds[6] == Control && kinds[7] == Evidence;
  }

  lemma RemarkedKinds(kind: string -> Kind, n: Cells, kinds: seq<Kind>)
    requires Classifies(kind, n) && kind(KEPT) == Answer
    requires |kinds| == 8 && forall i | 0 <= i < 8 :: kinds[i] == kind(Remarked(n)[i])
    ensures ColumnsOf(kinds, 1) == SECOND
  {
    LastAt(kinds, Answer, 2);
    LastAt(kinds, Review, 3);
    LastAt(kinds, Confident, 4);
    LastAt(kinds, Question, 5);
    LastAt(kinds, Control, 6);
    LastAt(kinds, Evidence, 7);
  }

  /** Two rows like headers, and rows of six cells that begin and end alike. */
  predicate Shape(rows: seq<seq<string>>, header: seq<string>, second: seq<string>) {
    && |rows| == 4 && rows[0] == header && rows[1] == second
    && |rows[2]| == 6 && rows[2][0] == rows[2][5] && |rows[3]| == 6 && rows[3][0] == rows[3][5]
  }

  lemma HeaderIs(a: Alphabet, n: Cells)
    requires KindsOf(a, n)
    ensures HeaderColumns(a, Header(n), 0) == FIRST
  {
    HeaderKinds(cell => KindOf(a, cell), n, Kinds(a, Header(n)));
  }

  lemma SixScore(a: Alphabet, rows: seq<seq<string>>, i: nat)
    requires i < |rows| && |rows[i]| == 6 && rows[i][0] == rows[i][5]
    ensures ScoreAt(a, rows, i) <= 5
  {
    SixCells(Kinds(a, rows[i]), i);
  }

  /** The first run takes the header for the header. */
  lemma FirstTable(a: Alphabet, n: Cells, rows: seq<seq<string>>)
    requires KindsOf(a, n) && Shape(rows, Header(n), Second(n))
    ensures IsTable(a, rows, FIRST)
  {
    HeaderIs(a, n);
    SecondKinds(cell => KindOf(a, cell), n, Kinds(a, rows[1]));
    SixScore(a, rows, 2);
    SixScore(a, rows, 3);
    FiveFirst(Scores(a, rows));
  }

  lemma FiveFirst(scores: seq<nat>)
    requires |scores| == 4 && scores[0] == 5 && scores[1] <= 5 && scores[2] <= 5 && scores[3] <= 5
    ensures FirstHighest(scores, 0)
  {
  }

  /** The second run takes the row below it. */
  lemma SecondTable(a: Alphabet, n: Cells, rows: seq<seq<string>>)
    requires KindsOf(a, n) && KindOf(a, KEPT) == Answer && Shape(rows, Header(n), Remarked(n))
    ensures IsTable(a, rows, SECOND)
  {
    HeaderIs(a, n);
    RemarkedKinds(cell => KindOf(a, cell), n, Kinds(a, rows[1]));
    SixScore(a, rows, 2);
    SixScore(a, rows, 3);
    SixFirst(Scores(a, rows));
  }

  lemma SixFirst(scores: seq<nat>)
    requires |scores| == 4 && scores[0] == 5 && scores[1] == 6 && scores[2] <= 5 && scores[3] <= 5
    ensures FirstHighest(scores, 1)
  {
  }

  // ---- the two runs ----

  lemma NotBlank(a: Alphabet, s: string)
    requires s != "" && !IsSpace(a, s[0])
    ensures !Blank(a, s)
  {
    assert s == s[..1] + s[1..];
    TrimRightKeeps(a, s[..1], s[1..]);
  }

  /** What the first run leaves in a row never reads as blank under its status. */
  lemma StatusShows(a: Alphabet, o: Outcome, reason: string)
    requires Ordinary(a)
    ensures !Blank(a, OutcomeName(o) + " — " + reason) && !Blank(a, KEPT)
  {
    var s := OutcomeName(o) + " — " + reason;
    assert s[0] in {'a', 'p', 'f', 'n'};
    NotBlank(a, s);
    NotBlank(a, KEPT);
  }

  lemma NoName(a: Alphabet)
    ensures Trim(a, "") == ""
  {
  }

  lemma SecondRemarked(a: Alphabet, decide: Query -> Decision, input: Input, n: Cells)
    requires Plain(a, n.question) && !Blank(a, n.status)
    ensures FillRow(a, decide, input, FIRST, Second(n)) == Remarked(n)
  {
    var row := Second(n);
    assert Get(row, 0) == n.question && Get(row, 3) == n.status;
    assert Treatment(a, FIRST, row) == Preserve;
  }

  /** Run 1 on a row someone has answered. */
  lemma AnsweredOnce(a: Alphabet, decide: Query -> Decision, input: Input, ask: string, answer: string, evidence: string)
    requires Plain(a, ask) && !Blank(a, answer)
    ensures FillRow(a, decide, input, FIRST, Row(ask, "", "", answer, evidence)) == Row(ask, UNEVALUATED, KEPT, answer, evidence)
  {
    var row := Row(ask, "", "", answer, evidence);
    assert Get(row, 0) == ask && Get(row, 3) == answer;
    assert Treatment(a, FIRST, row) == Preserve;
  }

  /** Run 1 on a row without an answer. */
  lemma FilledOnce(a: Alphabet, decide: Query -> Decision, input: Input, ask: string)
    requires Plain(a, ask)
    ensures
      var row := Row(ask, "", "", "", "");
      var d := decide(QueryOf(a, input, FIRST, row));
      FillRow(a, decide, input, FIRST, row)
        == Row(ask, d.confidence, OutcomeName(d.outcome) + " — " + d.reason, d.answer, d.evidenceURL)
  {
    var row := Row(ask, "", "", "", "");
    NoName(a);
    assert Get(row, 0) == ask && Get(row, 3) == "" && Get(row, 4) == "";
    assert Treatment(a, FIRST, row) == Fill;
  }

  /** Run 2 takes the status for an answer and overwrites what stands under the two other names. */
  lemma LostTwice(a: Alphabet, decide: Query -> Decision, input: Input, ask: string, confidence: string, status: string,
                  answer: string, evidence: string)
    requires Plain(a, ask) && !Blank(a, status)
    ensures FillRow(a, decide, input, SECOND, Row(ask, confidence, status, answer, evidence))
            == Row(ask, confidence, status, KEPT, UNEVALUATED)
  {
    var row := Row(ask, confidence, status, answer, evidence);
    NoName(a);
    assert Get(row, 6) == "" && Get(row, 5) == ask && Get(row, 2) == status;
    assert Treatment(a, SECOND, row) == Preserve;
  }

  /** A completed layout needs nothing. */
  lemma NothingAdded(header: seq<string>, c: Columns)
    requires c.answer >= 0 && c.evidence >= 0 && c.status >= 0 && c.confidence >= 0
    ensures Completed(Layout(header, c)) == Layout(header, c)
  {
  }

  lemma FilledWith(a: Alphabet, decide: Query -> Decision, input: Input, c: Columns, was: seq<seq<string>>, now: seq<seq<string>>)
    requires IsTable(a, was, c) && Ready(c) && |now| == |was|
    requires forall i | 0 <= i < |was| :: now[i] == if i <= c.headerRow then was[i] else FillRow(a, decide, input, c, was[i])
    ensures Filled(a, decide, input, was, c, now, SummaryUpTo(a, decide, input, c, was, |was|))
  {
    NothingAdded(was[c.headerRow], c);
    assert CompletedFrom(c, was, c, now);
  }

  lemma FirstFilled(a: Alphabet, decide: Query -> Decision, input: Input, was: seq<seq<string>>, now: seq<seq<string>>)
    requires IsTable(a, was, FIRST) && |was| == |now| == 4 && now[0] == was[0]
    requires now[1] == FillRow(a, decide, input, FIRST, was[1]) && now[2] == FillRow(a, decide, input, FIRST, was[2])
    requires now[3] == FillRow(a, decide, input, FIRST, was[3])
    ensures Filled(a, decide, input, was, FIRST, now, SummaryUpTo(a, decide, input, FIRST, was, |was|))
  {
    FourRows(row => FillRow(a, decide, input, FIRST, row), 0, was, now);
    FilledWith(a, decide, input, FIRST, was, now);
  }

  /** Row by row, for four rows. */
  lemma FourRows(f: seq<string> -> seq<string>, h: int, was: seq<seq<string>>, now: seq<seq<string>>)
    requires |was| == |now| == 4 && 0 <= h <= 1 && now[0] == was[0] && now[1] == (if h == 0 then f(was[1]) else was[1])
    requires now[2] == f(was[2]) && now[3] == f(was[3])
    ensures forall i | 0 <= i < |was| :: now[i] == if i <= h then was[i] else f(was[i])
  {
  }

  lemma SecondFilled(a: Alphabet, decide: Query -> Decision, input: Input, now: seq<seq<string>>, again: seq<seq<string>>)
    requires IsTable(a, now, SECOND) && |now| == |again| == 4 && again[0] == now[0] && again[1] == now[1]
    requires again[2] == FillRow(a, decide, input, SECOND, now[2]) && again[3] == FillRow(a, decide, input, SECOND, now[3])
    ensures Filled(a, decide, input, now, SECOND, again, SummaryUpTo(a, decide, input, SECOND, now, |now|))
  {
    FourRows(row => FillRow(a, decide, input, SECOND, row), 1, now, again);
    FilledWith(a, decide, input, SECOND, now, again);
  }

  /** The file before, between and after the two runs. */
  function Before(n: Cells, ask: string, answer: string, evidence: string): seq<seq<string>> {
    [Header(n), Second(n), Row(ask, "", "", answer, evidence), Row(ask, "", "", "", "")]
  }

  function Decided(a: Alphabet, decide: Query -> Decision, input: Input, ask: string): Decision {
    decide(QueryOf(a, input, FIRST, Row(ask, "", "", "", "")))
  }

  function Between(n: Cells, ask: string, answer: string, evidence: string, d: Decision): seq<seq<string>> {
    [Header(n), Remarked(n), Row(ask, UNEVALUATED, KEPT, answer, evidence),
     Row(ask, d.confidence, OutcomeName(d.outcome) + " — " + d.reason, d.answer, d.evidenceURL)]
  }

  function After(n: Cells, ask: string, d: Decision): seq<seq<string>> {
    [Header(n), Remarked(n), Row(ask, UNEVALUATED, KEPT, KEPT, UNEVALUATED),
     Row(ask, d.confidence, OutcomeName(d.outcome) + " — " + d.reason, KEPT, UNEVALUATED)]
  }

  /** What the cells of the header and the question of the rows must be. */
  predicate Given(a: Alphabet, n: Cells, ask: string) {
    && Ordinary(a) && KindsOf(a, n) && KindOf(a, KEPT) == Answer && Plain(a, n.question) && !Blank(a, n.status) && Plain(a, ask)
  }

  lemma FirstOf(a: Alphabet, decide: Query -> Decision, input: Input, n: Cells, was: seq<seq<string>>, now: seq<seq<string>>)
    requires KindsOf(a, n) && Shape(was, Header(n), Second(n)) && |now| == 4 && now[0] == was[0]
    requires now[1] == FillRow(a, decide, input, FIRST, was[1]) && now[2] == FillRow(a, decide, input, FIRST, was[2])
    requires now[3] == FillRow(a, decide, input, FIRST, was[3])
    ensures Filled(a, decide, input, was, FIRST, now, SummaryUpTo(a, decide, input, FIRST, was, |was|))
  {
    FirstTable(a, n, was);
    FirstFilled(a, decide, input, was, now);
  }

  lemma FirstRun(a: Alphabet, decide: Query -> Decision, input: Input, n: Cells, ask: string, answer: string, evidence: string)
    requires Given(a, n, ask) && !Blank(a, answer)
    ensures
      var was, now := Before(n, ask, answer, evidence), Between(n, ask, answer, evidence, Decided(a, decide, input, ask));
      Filled(a, decide, input, was, FIRST, now, SummaryUpTo(a, decide, input, FIRST, was, |was|))
  {
    var was, now := Before(n, ask, answer, evidence), Between(n, ask, answer, evidence, Decided(a, decide, input, ask));
    FirstRows(a, decide, input, n, ask, answer, evidence);
    FirstOf(a, decide, input, n, was, now);
  }

  lemma FirstRows(a: Alphabet, decide: Query -> Decision, input: Input, n: Cells, ask: string, answer: string, evidence: string)
    requires Given(a, n, ask) && !Blank(a, answer)
    ensures
      var was, now := Before(n, ask, answer, evidence), Between(n, ask, answer, evidence, Decided(a, decide, input, ask));
      && now[1] == FillRow(a, decide, input, FIRST, was[1]) && now[2] == FillRow(a, decide, input, FIRST, was[2])
      && now[3] == FillRow(a, decide, input, FIRST, was[3])
  {
    SecondRemarked(a, decide, input, n);
    AnsweredOnce(a, decide, input, ask, answer, evidence);
    FilledOnce(a, decide, input, ask);
  }

  lemma SecondRun(a: Alphabet, decide: Query -> Decision, input: Input, n: Cells, ask: string, answer: string, evidence: string, d: Decision)
    requires Given(a, n, ask)
    ensures
      var now, again := Between(n, ask, answer, evidence, d), After(n, ask, d);
      Filled(a, decide, input, now, SECOND, again, SummaryUpTo(a, decide, input, SECOND, now, |now|))
  {
    var now, again := Between(n, ask, answer, evidence, d), After(n, ask, d);
    var status := OutcomeName(d.outcome) + " — " + d.reason;
    SecondTable(a, n, now);
    StatusShows(a, d.outcome, d.reason);
    LostTwice(a, decide, input, ask, UNEVALUATED, KEPT, answer, evidence);
    LostTwice(a, decide, input, ask, d.confidence, status, d.answer, d.evidenceURL);
    SecondFilled(a, decide, input, now, again);
  }

  // ---- with the names the product gives ----

  const NAMES :=
    Cells("Control ID", "Question", "ZeroDock Answer", "ZeroDock Evidence URL", "ZeroDock Review Status", "ZeroDock Confidence")

  lemma NamesKinds(a: Alphabet)
    requires Ordinary(a)
    ensures KindsOf(a, NAMES) && KindOf(a, KEPT) == Answer
  {
    QuestionKind(a);
    ControlKind(a);
    AnswerName(a);
    EvidenceName(a);
    StatusName(a);
    ConfidenceName(a);
    KeptKind(a);
  }

  lemma NamesGiven(a: Alphabet, ask: string)
    requires Ordinary(a) && Plain(a, ask)
    ensures Given(a, NAMES, ask)
  {
    NamesKinds(a);
    QuestionPlain(a, "Question");
    NotBlank(a, "ZeroDock Review Status");
  }

  /** A run takes the file from was to now under the columns c. */
  ghost predicate Runs(a: Alphabet, decide: Query -> Decision, input: Input, was: seq<seq<string>>, c: Columns, now: seq<seq<string>>) {
    exists s :: Filled(a, decide, input, was, c, now, s)
  }

  /** Row i asks the question and has that answer and that evidence, in the columns of the first run. */
  predicate Holds(rows: seq<seq<string>>, i: nat, ask: string, answer: string, evidence: string) {
    i < |rows| && Get(rows[i], FIRST.question) == ask && Get(rows[i], FIRST.answer) == answer && Get(rows[i], FIRST.evidence) == evidence
  }

  lemma RowsHold(n: Cells, ask: string, answer: string, evidence: string, d: Decision)
    ensures Holds(Before(n, ask, answer, evidence), 2, ask, answer, evidence) && Holds(Before(n, ask, answer, evidence), 3, ask, "", "")
    ensures Holds(Between(n, ask, answer, evidence, d), 2, ask, answer, evidence)
    ensures Holds(Between(n, ask, answer, evidence, d), 3, ask, d.answer, d.evidenceURL)
    ensures Holds(After(n, ask, d), 2, ask, KEPT, UNEVALUATED) && Holds(After(n, ask, d), 3, ask, KEPT, UNEVALUATED)
  {
  }

  /** Both runs, and what becomes of the answered row and of the other one. */
  lemma TwoRuns(a: Alphabet, decide: Query -> Decision, input: Input, n: Cells, ask: string, answer: string, evidence: string)
      returns (was: seq<seq<string>>, now: seq<seq<string>>, again: seq<seq<string>>)
    requires Given(a, n, ask) && !Blank(a, answer)
    ensures Runs(a, decide, input, was, FIRST, now) && Runs(a, decide, input, now, SECOND, again)
    ensures Holds(was, 2, ask, answer, evidence) && Holds(now, 2, ask, answer, evidence) && Holds(again, 2, ask, KEPT, UNEVALUATED)
    ensures Holds(was, 3, ask, "", "") && Holds(again, 3, ask, KEPT, UNEVALUATED)
    ensures Holds(now, 3, ask, Decided(a, decide, input, ask).answer, Decided(a, decide, input, ask).evidenceURL)
  {
    var d := Decided(a, decide, input, ask);
    was, now, again := Before(n, ask, answer, evidence), Between(n, ask, answer, evidence, d), After(n, ask, d);
    FirstRun(a, decide, input, n, ask, answer, evidence);
    SecondRun(a, decide, input, n, ask, answer, evidence, d);
    RowsHold(n, ask, answer, evidence, d);
  }

  /** ANSWER LOST: the first run keeps what someone has answered to a question and the evidence beside it; the
      second writes its remarks over both. */
  lemma SecondRunLosesAnswer(a: Alphabet, decide: Query -> Decision, input: Input, ask: string, answer: string, evidence: string)
      returns (was: seq<seq<string>>, now: seq<seq<string>>, again: seq<seq<string>>)
    requires Ordinary(a) && Plain(a, ask) && !Blank(a, answer)
    ensures Runs(a, decide, input, was, FIRST, now) && Runs(a, decide, input, now, SECOND, again)
    ensures Holds(was, 2, ask, answer, evidence) && Holds(now, 2, ask, answer, evidence) && Holds(again, 2, ask, KEPT, UNEVALUATED)
  {
    NamesGiven(a, ask);
    was, now, again := TwoRuns(a, decide, input, NAMES, ask, answer, evidence);
  }

  /** EVIDENCE LOST: for every question the mappings match, the first run writes the URL into an empty
      evidence cell; the second writes its remark over it. */
  lemma SecondRunLosesEvidence(e: Engine, decide: Query -> Decision, input: Input, ask: string)
      returns (was: seq<seq<string>>, now: seq<seq<string>>, again: seq<seq<string>>)
    requires Ordinary(e.text) && Answers(e, input.accountID, decide) && Plain(e.text, ask) && Matches(e, input.accountID, ask)
    ensures Runs(e.text, decide, input, was, FIRST, now) && Runs(e.text, decide, input, now, SECOND, again)
    ensures Holds(was, 3, ask, "", "") && Holds(again, 3, ask, KEPT, UNEVALUATED)
    ensures Holds(now, 3, ask, Decided(e.text, decide, input, ask).answer, input.evidenceURL)
  {
    NamesGiven(e.text, ask);
    StatusShows(e.text, NeedsHuman, "");
    was, now, again := TwoRuns(e.text, decide, input, NAMES, ask, KEPT, "");
    GivenMatch(e, decide, input, ask);
  }

  /** The engine answers the question from its mappings. */
  ghost predicate Matches(e: Engine, accountID: string, ask: string)
    requires DistinctChecks(e.config.mappings)
  {
    !Restricted(e, Trim(e.text, ask)) && Matched(e.text, MappingList(e.config, accountID), "", Trim(e.text, ask)) != []
  }

  lemma GivenMatch(e: Engine, decide: Query -> Decision, input: Input, ask: string)
    requires Answers(e, input.accountID, decide) && Matches(e, input.accountID, ask)
    ensures Decided(e.text, decide, input, ask).evidenceURL == input.evidenceURL
  {
    var row := Row(ask, "", "", "", "");
    assert Get(row, 0) == ask;
    OutcomeIff(e, MappingList(e.config, input.accountID), QueryOf(e.text, input, FIRST, row));
  }
}
