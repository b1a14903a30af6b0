/** internal/questionnaire/document.go: the table filler. A CSV file is its records; cells beyond the
    end of a record read as "". */
module Document {
  import opened Wrappers
  import opened Report
  import opened Text
  import opened QuestionnaireConfig
  import opened Decide
  import GoJson

  // ---- finding the table ----

  /** -1 is no column. */
  datatype Columns = Columns(
    headerRow: int, control: int, question: int, answer: int, evidence: int, status: int, confidence: int)

  datatype Kind = Control | Question | Answer | Evidence | Review | Confident | Other

  predicate HeaderMatches(header: string, candidates: seq<string>) {
    candidates != [] && (header == candidates[0] || Contains(header, candidates[0]) || HeaderMatches(header, candidates[1..]))
  }

  const CONTROL_HEADERS := ["control id", "ccm control id", "caiq id", "question id", "control identifier"]
  const QUESTION_HEADERS :=
    ["question", "questions", "question text", "assessment question", "consensus assessment question",
     "control specification", "caiq question", "security question", "question requirement"]
  const ANSWER_HEADERS := ["answer", "response", "vendor response", "csp caiq answer"]
  const EVIDENCE_HEADERS :=
    ["evidence", "evidence url", "evidence link", "comments", "implementation description", "csp implementation description"]
  const STATUS_HEADERS := ["zerodock review status", "review status", "autofill status"]
  const CONFIDENCE_HEADERS := ["zerodock confidence", "match confidence", "autofill confidence"]

  function KindOf(a: Alphabet, cell: string): Kind { KindOfHeader(NormalizeText(a, cell)) }

  function KindOfHeader(header: string): Kind {
    if HeaderMatches(header, CONTROL_HEADERS) then Control
    else if header in QUESTION_HEADERS then Question
    else if HeaderMatches(header, ANSWER_HEADERS) then Answer
    else if HeaderMatches(header, EVIDENCE_HEADERS) then Evidence
    else if HeaderMatches(header, STATUS_HEADERS) then Review
    else if HeaderMatches(header, CONFIDENCE_HEADERS) then Confident
    else Other
  }

  function Kinds(a: Alphabet, row: seq<string>): seq<Kind> {
    seq(|row|, i requires 0 <= i < |row| => KindOf(a, row[i]))
  }

  /** The last cell of a kind. */
  function LastOf(kinds: seq<Kind>, k: Kind): (col: int)
    ensures -1 <= col < |kinds|
  {
    if kinds == [] then -1
    else var n := |kinds| - 1; if kinds[n] == k then n else LastOf(kinds[..n], k)
  }

  lemma {:induction false} LastOfMeans(kinds: seq<Kind>, k: Kind)
    ensures LastOf(kinds, k) >= 0 ==> kinds[LastOf(kinds, k)] == k
    ensures forall j | LastOf(kinds, k) < j < |kinds| :: kinds[j] != k
  {
    if kinds != [] && kinds[|kinds| - 1] != k { LastOfMeans(kinds[..|kinds| - 1], k); }
  }

  function ColumnsOf(kinds: seq<Kind>, headerRow: int): Columns {
    Columns(headerRow, LastOf(kinds, Control), LastOf(kinds, Question), LastOf(kinds, Answer),
            LastOf(kinds, Evidence), LastOf(kinds, Review), LastOf(kinds, Confident))
  }

  function HeaderColumns(a: Alphabet, row: seq<string>, headerRow: int): Columns { ColumnsOf(Kinds(a, row), headerRow) }

  function Present(col: int): nat { if col >= 0 then 1 else 0 }

  /** 0 for a row without a question column, else the number of columns recognised. */
  function RowScore(c: Columns): nat {
    if c.question < 0 then 0
    else 1 + Present(c.control) + Present(c.answer) + Present(c.evidence) + Present(c.status) + Present(c.confidence)
  }

  function ScoreAt(a: Alphabet, rows: seq<seq<string>>, i: nat): nat
    requires i < |rows|
  {
    RowScore(HeaderColumns(a, rows[i], i))
  }

  function Limit(rows: seq<seq<string>>): nat { if |rows| > 30 then 30 else |rows| }

  method ScanHeader(kinds: seq<Kind>, headerRow: int) returns (c: Columns)
    ensures c == ColumnsOf(kinds, headerRow)
  {
    c := Columns(headerRow, -1, -1, -1, -1, -1, -1);
    for col := 0 to |kinds|
      invariant c == ColumnsOf(kinds[..col], headerRow)
    {
      assert kinds[..col + 1][..col] == kinds[..col];
      match kinds[col]
      case Control => c := c.(control := col);
      case Question => c := c.(question := col);
      case Answer => c := c.(answer := col);
      case Evidence => c := c.(evidence := col);
      case Review => c := c.(status := col);
      case Confident => c := c.(confidence := col);
      case Other =>
    }
    assert kinds[..|kinds|] == kinds;
  }

  /** The scores of the first thirty rows. */
  function Scores(a: Alphabet, rows: seq<seq<string>>): seq<nat> {
    seq(Limit(rows), i requires 0 <= i < Limit(rows) => ScoreAt(a, rows, i))
  }

  /** Some row has a question column and another one, or the very first row a question column alone. */
  predicate Qualifies(scores: seq<nat>) {
    exists i | 0 <= i < |scores| :: scores[i] >= 2 || (i == 0 && scores[i] == 1)
  }

  predicate HasTable(a: Alphabet, rows: seq<seq<string>>) { Qualifies(Scores(a, rows)) }

  /** Score i is the first of the highest. */
  predicate FirstHighest(scores: seq<nat>, i: int) {
    && 0 <= i < |scores|
    && (forall j | 0 <= j < |scores| :: scores[j] <= scores[i]) && forall j | 0 <= j < i :: scores[j] < scores[i]
  }

  /** The columns of the first row with the highest score. */
  predicate IsTable(a: Alphabet, rows: seq<seq<string>>, c: Columns) {
    && 0 <= c.headerRow < Limit(rows) && FirstHighest(Scores(a, rows), c.headerRow)
    && c == HeaderColumns(a, rows[c.headerRow], c.headerRow) && c.question >= 0
  }

  method ScoreRow(a: Alphabet, rows: seq<seq<string>>, i: nat) returns (c: Columns, score: nat)
    requires i < Limit(rows)
    ensures c == HeaderColumns(a, rows[i], i) && c.headerRow == i
    ensures score == Scores(a, rows)[i] && (score > 0 ==> c.question >= 0)
  {
    c := ScanHeader(Kinds(a, rows[i]), i);
    if c.question < 0 { return c, 0; }
    score := 1 + Present(c.control) + Present(c.answer) + Present(c.evidence) + Present(c.status) + Present(c.confidence);
  }

  lemma TableUnique(a: Alphabet, rows: seq<seq<string>>, c: Columns, d: Columns)
    requires IsTable(a, rows, c) && IsTable(a, rows, d)
    ensures c == d
  {
    FirstUnique(Scores(a, rows), c.headerRow, d.headerRow);
  }

  lemma FirstUnique(scores: seq<nat>, i: int, j: int)
    requires FirstHighest(scores, i) && FirstHighest(scores, j)
    ensures i == j
  {
    assert scores[i] <= scores[j] && scores[j] <= scores[i];
  }

  /** The best of the first i scores is at h, or they are all 0. */
  predicate BestSoFar(scores: seq<nat>, i: nat, h: int, best: nat)
    requires i <= |scores|
  {
    && (forall j | 0 <= j < i :: scores[j] <= best)
    && (best > 0 ==> 0 <= h < i && scores[h] == best && forall j | 0 <= j < h :: scores[j] < best)
  }

  lemma BestStep(scores: seq<nat>, i: nat, h: int, best: nat)
    requires i < |scores| && BestSoFar(scores, i, h, best)
    ensures if scores[i] > best then BestSoFar(scores, i + 1, i, scores[i]) else BestSoFar(scores, i + 1, h, best)
  {
  }

  lemma BestIsFirst(scores: seq<nat>, h: int, best: nat)
    requires BestSoFar(scores, |scores|, h, best)
    ensures Qualifies(scores) <==> best >= 2 || (best == 1 && h == 0)
    ensures best > 0 ==> FirstHighest(scores, h)
  {
    if best >= 1 { assert scores[h] == best; }
  }

  method DetectTable(a: Alphabet, rows: seq<seq<string>>) returns (best: Columns, ok: bool)
    ensures ok <==> HasTable(a, rows)
    ensures ok ==> IsTable(a, rows, best)
  {
    var bestScore := 0;
    best := Columns(0, 0, 0, 0, 0, 0, 0);
    ghost var scores := Scores(a, rows);
    for i := 0 to Limit(rows)
      invariant BestSoFar(scores, i, best.headerRow, bestScore)
      invariant bestScore > 0 ==> 0 <= best.headerRow < i && best.question >= 0
                                  && best == HeaderColumns(a, rows[best.headerRow], best.headerRow)
    {
      BestStep(scores, i, best.headerRow, bestScore);
      var c, score := ScoreRow(a, rows, i);
      if score > bestScore { bestScore, best := score, c; }
    }
    BestIsFirst(scores, best.headerRow, bestScore);
    ok := bestScore >= 2 || (bestScore == 1 && best.headerRow == 0);
  }

  lemma PresentIff(kinds: seq<Kind>, k: Kind)
    ensures LastOf(kinds, k) >= 0 <==> k in kinds
  {
    LastOfMeans(kinds, k);
  }

  /** A score counts the kinds in the row. */
  lemma ScoreCounts(kinds: seq<Kind>, i: int)
    ensures RowScore(ColumnsOf(kinds, i)) ==
      if Question !in kinds then 0
      else 1 + (if Control in kinds then 1 else 0) + (if Answer in kinds then 1 else 0) + (if Evidence in kinds then 1 else 0)
             + (if Review in kinds then 1 else 0) + (if Confident in kinds then 1 else 0)
  {
    PresentIff(kinds, Question);
    PresentIff(kinds, Control);
    PresentIff(kinds, Answer);
    PresentIff(kinds, Evidence);
    PresentIff(kinds, Review);
    PresentIff(kinds, Confident);
  }

  /** The row names a question and, unless it is the very first, something else. */
  predicate Names(kinds: seq<Kind>, i: nat) {
    && Question in kinds
    && (i == 0 || Control in kinds || Answer in kinds || Evidence in kinds || Review in kinds || Confident in kinds)
  }

  /** WHERE THERE IS A TABLE: exactly where one of the first thirty rows names a question and, below the first row,
      another column. */
  lemma HasTableIff(a: Alphabet, rows: seq<seq<string>>)
    ensures HasTable(a, rows) <==> exists i: nat :: i < |rows| && i < 30 && Names(Kinds(a, rows[i]), i)
  {
    var scores := Scores(a, rows);
    forall i: nat | i < |scores| ensures Names(Kinds(a, rows[i]), i) <==> scores[i] >= 2 || (i == 0 && scores[i] == 1) {
      ScoreCounts(Kinds(a, rows[i]), i);
    }
    if HasTable(a, rows) {
      var i :| 0 <= i < |scores| && (scores[i] >= 2 || (i == 0 && scores[i] == 1));
      assert Names(Kinds(a, rows[i]), i);
    }
    if i: nat :| i < |rows| && i < 30 && Names(Kinds(a, rows[i]), i) {
      assert scores[i] >= 2 || (i == 0 && scores[i] == 1);
    }
  }

  predicate Apart(i: int, j: int) { i < 0 || i != j }

  /** No two recognised columns are the same. */
  predicate DistinctColumns(c: Columns) {
    && Apart(c.control, c.question) && Apart(c.control, c.answer) && Apart(c.control, c.evidence)
    && Apart(c.control, c.status) && Apart(c.control, c.confidence)
    && Apart(c.question, c.answer) && Apart(c.question, c.evidence) && Apart(c.question, c.status)
    && Apart(c.question, c.confidence)
    && Apart(c.answer, c.evidence) && Apart(c.answer, c.status) && Apart(c.answer, c.confidence)
    && Apart(c.evidence, c.status) && Apart(c.evidence, c.confidence) && Apart(c.status, c.confidence)
  }

  lemma DetectedColumnsDistinct(a: Alphabet, row: seq<string>, headerRow: int)
    ensures DistinctColumns(HeaderColumns(a, row, headerRow))
  {
    KindsDistinct(Kinds(a, row), headerRow);
  }

  lemma KindsDistinct(kinds: seq<Kind>, headerRow: int)
    ensures DistinctColumns(ColumnsOf(kinds, headerRow))
  {
    LastOfMeans(kinds, Control);
    LastOfMeans(kinds, Question);
    LastOfMeans(kinds, Answer);
    LastOfMeans(kinds, Evidence);
    LastOfMeans(kinds, Review);
    LastOfMeans(kinds, Confident);
  }

  // ---- cells ----

  function Get(row: seq<string>, col: int): string {
    if 0 <= col < |row| then row[col] else ""
  }

  /** There is no column below 0. */
  function Set(row: seq<string>, col: int, value: string): seq<string> {
    if col < 0 then row
    else if col < |row| then row[col := value]
    else row + seq(col - |row|, _ => "") + [value]
  }

  lemma SetGet(row: seq<string>, col: int, value: string)
    requires col >= 0
    ensures |row| <= |Set(row, col, value)|
    ensures forall k :: Get(Set(row, col, value), k) == if k == col then value else Get(row, k)
  {
  }

  /** Answer, evidence, status and confidence all have a column. */
  predicate Complete(c: Columns) {
    c.headerRow >= 0 && c.answer >= 0 && c.evidence >= 0 && c.status >= 0 && c.confidence >= 0
  }

  predicate Ready(c: Columns) { Complete(c) && c.question >= 0 && DistinctColumns(c) }

  /** A row written by the filler keeps every cell outside its four columns. */
  ghost predicate Framed(c: Columns, before: seq<string>, after: seq<string>) {
    && |before| <= |after|
    && forall k :: k != c.answer && k != c.evidence && k != c.status && k != c.confidence ==> Get(after, k) == Get(before, k)
  }

  // ---- one row ----

  datatype Input = Input(
    accountID: string, evidenceURL: string, date: string, checks: map<string, CheckOutput>, listed: nat, scanned: nat)

  const INSTRUCTIONS := ["answer each question", "questionnaire instructions", "completion guidance"]

  predicate ContainsOne(text: string, phrases: seq<string>) {
    phrases != [] && (ContainsPhrase(text, phrases[0]) || ContainsOne(text, phrases[1..]))
  }

  predicate IsInstruction(a: Alphabet, question: string) { ContainsOne(NormalizeText(a, question), INSTRUCTIONS) }

  function QuestionOf(a: Alphabet, c: Columns, row: seq<string>): string { Trim(a, Get(row, c.question)) }

  function ControlOf(a: Alphabet, c: Columns, row: seq<string>): string {
    if c.control >= 0 then Trim(a, Get(row, c.control)) else ""
  }

  predicate Skipped(a: Alphabet, c: Columns, row: seq<string>) {
    ControlOf(a, c, row) == "" && (QuestionOf(a, c, row) == "" || IsInstruction(a, QuestionOf(a, c, row)))
  }

  predicate Blank(a: Alphabet, s: string) { Trim(a, s) == "" }

  datatype Handling = Skip | Preserve | Fill

  /** A row is passed over, keeps the answer it has, or is filled. */
  function Treatment(a: Alphabet, c: Columns, row: seq<string>): Handling {
    if Skipped(a, c, row) then Skip else if Blank(a, Get(row, c.answer)) then Fill else Preserve
  }

  function Coverage(input: Input): string {
    if input.listed == 0 then "account coverage unavailable"
    else GoJson.Decimal(input.scanned) + " of " + GoJson.Decimal(input.listed) + " listed AWS accounts"
  }

  function QueryOf(a: Alphabet, input: Input, c: Columns, row: seq<string>): Query {
    Query(input.accountID, ControlOf(a, c, row), QuestionOf(a, c, row), input.evidenceURL, input.date, Coverage(input), input.checks)
  }

  function OutcomeName(o: Outcome): string {
    match o
    case Answered => "answered"
    case Partial => "partial"
    case Flagged => "flagged"
    case NeedsHuman => "needs human"
  }

  const SEPARATOR := " | ZeroDock evidence: "

  /** The new evidence cell. */
  function EvidenceAfter(a: Alphabet, cell: string, url: string): string {
    var existing := Trim(a, cell);
    if url == "" then cell
    else if existing == "" then url
    else if Contains(existing, url) then cell
    else existing + SEPARATOR + url
  }

  function AnswerAfter(cell: string, d: Decision): string { if d.answer != "" then d.answer else cell }

  ghost predicate PreservedRow(c: Columns, before: seq<string>, after: seq<string>) {
    && Framed(c, before, after)
    && Get(after, c.answer) == Get(before, c.answer) && Get(after, c.evidence) == Get(before, c.evidence)
    && Get(after, c.status) == KEPT
    && Get(after, c.confidence) == UNEVALUATED
  }

  ghost predicate DecidedRow(a: Alphabet, c: Columns, before: seq<string>, d: Decision, after: seq<string>) {
    && Framed(c, before, after)
    && Get(after, c.answer) == AnswerAfter(Get(before, c.answer), d)
    && Get(after, c.evidence) == EvidenceAfter(a, Get(before, c.evidence), d.evidenceURL)
    && Get(after, c.status) == OutcomeName(d.outcome) + " — " + d.reason
    && Get(after, c.confidence) == d.confidence
  }

  /** decide is what Decide computes for the account. */
  ghost predicate Answers(e: Engine, accountID: string, decide: Query -> Decision) {
    && DistinctChecks(e.config.mappings)
    && forall q :: decide(q) == DecideSpec(e, MappingList(e.config, accountID), q)
  }

  ghost function Decider(e: Engine, accountID: string): (decide: Query -> Decision)
    requires DistinctChecks(e.config.mappings)
    ensures Answers(e, accountID, decide)
  {
    q => DecideSpec(e, MappingList(e.config, accountID), q)
  }

  /** The row with the cells of a decision written. */
  function WriteEvidence(a: Alphabet, c: Columns, row: seq<string>, url: string): seq<string>
  {
    var existing := Trim(a, Get(row, c.evidence));
    if url == "" || (existing != "" && Contains(existing, url)) then row
    else Set(row, c.evidence, if existing == "" then url else existing + SEPARATOR + url)
  }

  function Write(a: Alphabet, c: Columns, row: seq<string>, d: Decision): seq<string>
  {
    var answered := if d.answer != "" then Set(row, c.answer, d.answer) else row;
    var r := WriteEvidence(a, c, answered, d.evidenceURL);
    Set(Set(r, c.status, OutcomeName(d.outcome) + " — " + d.reason), c.confidence, d.confidence)
  }

  const KEPT := "needs human" + " — " + "existing answer preserved"
  const UNEVALUATED := "Not evaluated — existing answer"

  function Keep(c: Columns, row: seq<string>): seq<string>
  {
    Set(Set(row, c.status, KEPT), c.confidence, UNEVALUATED)
  }

  /** What the filler makes of one row below the header. */
  function FillRow(a: Alphabet, decide: Query -> Decision, input: Input, c: Columns, row: seq<string>): seq<string>
  {
    match Treatment(a, c, row)
    case Skip => row
    case Preserve => Keep(c, row)
    case Fill => Write(a, c, row, decide(QueryOf(a, input, c, row)))
  }

  lemma WriteCells(a: Alphabet, c: Columns, row: seq<string>, d: Decision)
    requires Ready(c)
    ensures DecidedRow(a, c, row, d, Write(a, c, row, d))
  {
    var answered := if d.answer != "" then Set(row, c.answer, d.answer) else row;
    SetGet(row, c.answer, d.answer);
    var existing := Trim(a, Get(row, c.evidence));
    SetGet(answered, c.evidence, if existing == "" then d.evidenceURL else existing + SEPARATOR + d.evidenceURL);
    var r := WriteEvidence(a, c, answered, d.evidenceURL);
    var status := OutcomeName(d.outcome) + " — " + d.reason;
    SetGet(r, c.status, status);
    SetGet(Set(r, c.status, status), c.confidence, d.confidence);
  }

  lemma KeepCells(c: Columns, row: seq<string>)
    requires Ready(c)
    ensures PreservedRow(c, row, Keep(c, row))
  {
    SetGet(row, c.status, KEPT);
    SetGet(Set(row, c.status, KEPT), c.confidence, UNEVALUATED);
  }

  lemma {:induction false} TrimRightKeeps(a: Alphabet, x: string, y: string)
    requires x != "" && !IsSpace(a, x[|x| - 1])
    ensures Starts(TrimRight(a, x + y), x)
  {
    if y != "" {
      assert (x + y)[..|x + y| - 1] == x + y[..|y| - 1];
      TrimRightKeeps(a, x, y[..|y| - 1]);
    } else {
      assert x + y == x;
    }
  }

  lemma EvidenceKept(a: Alphabet, cell: string, url: string)
    ensures Starts(Trim(a, EvidenceAfter(a, cell, url)), Trim(a, cell))
  {
    var existing := Trim(a, cell);
    TrimIdempotent(a, cell);
    if existing != "" {
      TrimRightKeeps(a, existing, SEPARATOR + url);
      assert existing + SEPARATOR + url == existing + (SEPARATOR + url);
      assert TrimLeft(a, existing + (SEPARATOR + url)) == existing + (SEPARATOR + url);
    }
  }

  /** FRAME: only the four columns are written, and an answer that is not blank stays as it is. */
  lemma FillRowFrame(a: Alphabet, decide: Query -> Decision, input: Input, c: Columns, row: seq<string>)
    requires Ready(c)
    ensures
      var r := FillRow(a, decide, input, c, row);
      && Framed(c, row, r)
      && (!Blank(a, Get(row, c.answer)) ==> Get(r, c.answer) == Get(row, c.answer) && Get(r, c.evidence) == Get(row, c.evidence))
      && Starts(Trim(a, Get(r, c.evidence)), Trim(a, Get(row, c.evidence)))
  {
    var d := decide(QueryOf(a, input, c, row));
    EvidenceKept(a, Get(row, c.evidence), d.evidenceURL);
    WriteCells(a, c, row, d);
    KeepCells(c, row);
  }

  datatype Summary = Summary(answered: nat, partial: nat, flagged: nat, needsHuman: nat, rowsReviewed: nat)

  const NOTHING := Summary(0, 0, 0, 0, 0)

  function CountOutcome(s: Summary, o: Outcome): Summary {
    var t := s.(rowsReviewed := s.rowsReviewed + 1);
    match o
    case Answered => t.(answered := s.answered + 1)
    case Partial => t.(partial := s.partial + 1)
    case Flagged => t.(flagged := s.flagged + 1)
    case NeedsHuman => t.(needsHuman := s.needsHuman + 1)
  }

  /** The outcome counted for a row; a row with an answer already stays with a person. */
  function RowOutcome(a: Alphabet, decide: Query -> Decision, input: Input, c: Columns, row: seq<string>): Option<Outcome> {
    match Treatment(a, c, row)
    case Skip => None
    case Preserve => Some(NeedsHuman)
    case Fill => Some(decide(QueryOf(a, input, c, row)).outcome)
  }

  function Outcomes(a: Alphabet, decide: Query -> Decision, input: Input, c: Columns, rows: seq<seq<string>>): seq<Option<Outcome>> {
    seq(|rows|, i requires 0 <= i < |rows| => RowOutcome(a, decide, input, c, rows[i]))
  }

  function Count(s: Summary, o: Option<Outcome>): Summary { if o.Some? then CountOutcome(s, o.value) else s }

  function SummaryOf(outcomes: seq<Option<Outcome>>): Summary {
    if outcomes == [] then NOTHING
    else var n := |outcomes| - 1; Count(SummaryOf(outcomes[..n]), outcomes[n])
  }

  lemma SummarySnoc(outcomes: seq<Option<Outcome>>, o: Option<Outcome>)
    ensures SummaryOf(outcomes + [o]) == Count(SummaryOf(outcomes), o)
  {
    assert (outcomes + [o])[..|outcomes|] == outcomes;
  }

  /** The rows below the header and above row k filled, all others as they are. */
  function FilledRows(a: Alphabet, decide: Query -> Decision, input: Input, c: Columns, rows: seq<seq<string>>, k: int): seq<seq<string>>
  {
    seq(|rows|, i requires 0 <= i < |rows| => if c.headerRow < i < k then FillRow(a, decide, input, c, rows[i]) else rows[i])
  }

  /** The summary of the rows below the header and above row k. */
  function SummaryUpTo(a: Alphabet, decide: Query -> Decision, input: Input, c: Columns, rows: seq<seq<string>>, k: int): Summary
    requires 0 <= c.headerRow < k <= |rows|
  {
    SummaryOf(Outcomes(a, decide, input, c, rows[c.headerRow + 1..k]))
  }

  /** The loop has dealt with the rows above row k. */
  ghost predicate Processed(a: Alphabet, decide: Query -> Decision, input: Input, c: Columns, rows: seq<seq<string>>, k: int,
                            records: seq<seq<string>>, summary: Summary)
  {
    && 0 <= c.headerRow < k <= |rows|
    && records == FilledRows(a, decide, input, c, rows, k)
    && summary == SummaryUpTo(a, decide, input, c, rows, k)
  }

  lemma NextRow(a: Alphabet, decide: Query -> Decision, input: Input, c: Columns, rows: seq<seq<string>>, k: nat)
    requires 0 <= c.headerRow < k < |rows|
    ensures FilledRows(a, decide, input, c, rows, k)[k] == rows[k]
    ensures FilledRows(a, decide, input, c, rows, k)[k := FillRow(a, decide, input, c, rows[k])] == FilledRows(a, decide, input, c, rows, k + 1)
  {
  }

  lemma NextOutcome(a: Alphabet, decide: Query -> Decision, input: Input, c: Columns, rows: seq<seq<string>>, k: nat)
    requires 0 <= c.headerRow < k < |rows|
    ensures SummaryUpTo(a, decide, input, c, rows, k + 1)
            == Count(SummaryUpTo(a, decide, input, c, rows, k), RowOutcome(a, decide, input, c, rows[k]))
  {
    OutcomesSnoc(a, decide, input, c, rows[c.headerRow + 1..k], rows[k]);
    assert rows[c.headerRow + 1..k + 1] == rows[c.headerRow + 1..k] + [rows[k]];
  }

  lemma OutcomesSnoc(a: Alphabet, decide: Query -> Decision, input: Input, c: Columns, rows: seq<seq<string>>, row: seq<string>)
    ensures SummaryOf(Outcomes(a, decide, input, c, rows + [row]))
            == Count(SummaryOf(Outcomes(a, decide, input, c, rows)), RowOutcome(a, decide, input, c, row))
  {
    var o := RowOutcome(a, decide, input, c, row);
    assert Outcomes(a, decide, input, c, rows + [row]) == Outcomes(a, decide, input, c, rows) + [o];
    SummarySnoc(Outcomes(a, decide, input, c, rows), o);
  }

  lemma NoRowYet(a: Alphabet, decide: Query -> Decision, input: Input, c: Columns, rows: seq<seq<string>>)
    requires 0 <= c.headerRow < |rows|
    ensures FilledRows(a, decide, input, c, rows, c.headerRow + 1) == rows
    ensures SummaryUpTo(a, decide, input, c, rows, c.headerRow + 1) == NOTHING
  {
  }

  datatype Layout = Layout(header: seq<string>, cols: Columns)

  /** The name of a column the filler adds. */
  function ColumnName(k: Kind): string {
    match k
    case Answer => "ZeroDock Answer"
    case Evidence => "ZeroDock Evidence URL"
    case Review => "ZeroDock Review Status"
    case Confident => "ZeroDock Confidence"
    case _ => ""
  }

  predicate HasColumn(c: Columns, k: Kind) {
    match k
    case Answer => c.answer >= 0
    case Evidence => c.evidence >= 0
    case Review => c.status >= 0
    case Confident => c.confidence >= 0
    case _ => true
  }

  function WithColumn(c: Columns, k: Kind, col: int): Columns {
    match k
    case Control => c.(control := col)
    case Question => c.(question := col)
    case Answer => c.(answer := col)
    case Evidence => c.(evidence := col)
    case Review => c.(status := col)
    case Confident => c.(confidence := col)
    case Other => c
  }

  /** A missing column becomes a new last cell of the header. */
  function AddColumn(l: Layout, k: Kind): Layout {
    if HasColumn(l.cols, k) then l else Layout(l.header + [ColumnName(k)], WithColumn(l.cols, k, |l.header|))
  }

  function Completed(l: Layout): Layout {
    AddColumn(AddColumn(AddColumn(AddColumn(l, Answer), Evidence), Review), Confident)
  }

  /** Every column is missing (-1) or within the header, and no two coincide. */
  predicate Sane(l: Layout) {
    var c, n := l.cols, |l.header|;
    && DistinctColumns(c) && c.headerRow >= 0 && 0 <= c.question < n
    && -1 <= c.control < n && -1 <= c.answer < n && -1 <= c.evidence < n && -1 <= c.status < n && -1 <= c.confidence < n
  }

  /** Columns that were found and cells that were there stay. */
  predicate Extends(l: Layout, m: Layout) {
    && m.cols.headerRow == l.cols.headerRow && m.cols.control == l.cols.control && m.cols.question == l.cols.question
    && (l.cols.answer >= 0 ==> m.cols.answer == l.cols.answer)
    && (l.cols.evidence >= 0 ==> m.cols.evidence == l.cols.evidence)
    && (l.cols.status >= 0 ==> m.cols.status == l.cols.status)
    && (l.cols.confidence >= 0 ==> m.cols.confidence == l.cols.confidence)
    && l.header <= m.header
  }

  lemma AddColumnExtends(l: Layout, k: Kind)
    requires Sane(l)
    ensures Sane(AddColumn(l, k)) && Extends(l, AddColumn(l, k)) && HasColumn(AddColumn(l, k).cols, k)
  {
  }

  lemma ExtendsTransitive(l: Layout, m: Layout, n: Layout)
    requires Extends(l, m) && Extends(m, n)
    ensures Extends(l, n)
  {
  }

  /** A completed layout has all columns, no two the same, and keeps what was there. */
  lemma CompletedReady(l: Layout)
    requires Sane(l)
    ensures Ready(Completed(l).cols) && Sane(Completed(l)) && Extends(l, Completed(l))
  {
    var m := AddColumn(l, Answer);
    AddColumnExtends(l, Answer);
    var n := AddColumn(m, Evidence);
    AddColumnExtends(m, Evidence);
    var o := AddColumn(n, Review);
    AddColumnExtends(n, Review);
    AddColumnExtends(o, Confident);
    ExtendsTransitive(l, m, n);
    ExtendsTransitive(l, n, o);
    ExtendsTransitive(l, o, AddColumn(o, Confident));
  }

  lemma DetectedSane(a: Alphabet, row: seq<string>, headerRow: int)
    requires headerRow >= 0 && HeaderColumns(a, row, headerRow).question >= 0
    ensures Sane(Layout(row, HeaderColumns(a, row, headerRow)))
  {
    KindsDistinct(Kinds(a, row), headerRow);
    assert |Kinds(a, row)| == |row|;
  }

  /** The header of the table is the completed one. */
  predicate CompletedFrom(cols: Columns, was: seq<seq<string>>, c: Columns, now: seq<seq<string>>) {
    && 0 <= cols.headerRow < |was| && cols.headerRow < |now|
    && Layout(now[cols.headerRow], c) == Completed(Layout(was[cols.headerRow], cols)) && c.headerRow == cols.headerRow && Ready(c)
  }

  /** The columns are those of the detected table, completed; above the header nothing has changed. */
  ghost predicate TableKept(a: Alphabet, was: seq<seq<string>>, c: Columns, now: seq<seq<string>>) {
    && 0 <= c.headerRow < |was| == |now|
    && (exists cols :: IsTable(a, was, cols) && CompletedFrom(cols, was, c, now))
    && forall i | 0 <= i < c.headerRow :: now[i] == was[i]
  }

  /** The rows below the header are filled. */
  ghost predicate RowsFilled(a: Alphabet, decide: Query -> Decision, input: Input, c: Columns, was: seq<seq<string>>, now: seq<seq<string>>) {
    && |now| == |was|
    && forall i | 0 <= i < |was| && c.headerRow < i :: now[i] == FillRow(a, decide, input, c, was[i])
  }

  /** What a filled file is. */
  ghost predicate Filled(a: Alphabet, decide: Query -> Decision, input: Input, was: seq<seq<string>>, c: Columns,
                         now: seq<seq<string>>, summary: Summary)
  {
    && TableKept(a, was, c, now) && RowsFilled(a, decide, input, c, was, now)
    && summary == SummaryUpTo(a, decide, input, c, was, |was|)
  }

  lemma RowsFilledFrom(a: Alphabet, decide: Query -> Decision, input: Input, c: Columns, was: seq<seq<string>>,
                       mid: seq<seq<string>>, now: seq<seq<string>>)
    requires |was| == |mid| && forall i | 0 <= i < |was| && i != c.headerRow :: mid[i] == was[i]
    requires now == FilledRows(a, decide, input, c, mid, |mid|)
    ensures RowsFilled(a, decide, input, c, was, now)
    ensures forall i | 0 <= i < |was| && i < c.headerRow :: now[i] == was[i]
    ensures 0 <= c.headerRow < |was| ==> now[c.headerRow] == mid[c.headerRow]
  {
  }

  lemma SummaryFrame(a: Alphabet, decide: Query -> Decision, input: Input, c: Columns, was: seq<seq<string>>, mid: seq<seq<string>>)
    requires |was| == |mid| && 0 <= c.headerRow < |was| && forall i | 0 <= i < |was| && i != c.headerRow :: mid[i] == was[i]
    ensures SummaryUpTo(a, decide, input, c, mid, |mid|) == SummaryUpTo(a, decide, input, c, was, |was|)
  {
    assert mid[c.headerRow + 1..|mid|] == was[c.headerRow + 1..|was|];
  }

  lemma FilledFrom(a: Alphabet, decide: Query -> Decision, input: Input, was: seq<seq<string>>, cols: Columns, c: Columns,
                   mid: seq<seq<string>>, now: seq<seq<string>>, summary: Summary)
    requires |was| == |mid| && IsTable(a, was, cols) && CompletedFrom(cols, was, c, mid)
    requires forall i | 0 <= i < |was| && i != cols.headerRow :: mid[i] == was[i]
    requires Processed(a, decide, input, c, mid, |mid|, now, summary)
    ensures Filled(a, decide, input, was, c, now, summary)
  {
    RowsFilledFrom(a, decide, input, c, was, mid, now);
    SummaryFrame(a, decide, input, c, was, mid);
    assert CompletedFrom(cols, was, c, now);
  }

  // ---- the sheet ----

  class Sheet {
    var records: seq<seq<string>>

    constructor (rows: seq<seq<string>>)
      ensures records == rows
    {
      records := rows;
    }

    function Cell(row: int, col: int): string
      reads this
    {
      if 0 <= row < |records| then Get(records[row], col) else ""
    }

    method SetCell(row: nat, col: nat, value: string)
      requires row < |records|
      modifies this
      ensures records == old(records)[row := Set(old(records)[row], col, value)]
    {
      var record := records[row];
      while |record| <= col
        invariant |record| <= col + 1 || record == old(records)[row]
        invariant |record| >= |old(records)[row]| && record[..|old(records)[row]|] == old(records)[row]
        invariant forall k | |old(records)[row]| <= k < |record| :: record[k] == ""
        decreases col + 1 - |record|
      {
        record := record + [""];
      }
      record := record[col := value];
      assert record == Set(old(records)[row], col, value);
      records := records[row := record];
    }

    /** ensureCSVColumns: the missing columns are appended to the header. */
    method EnsureColumns(cols: Columns) returns (c: Columns)
      requires 0 <= cols.headerRow < |records| && Sane(Layout(records[cols.headerRow], cols))
      modifies this
      ensures |records| == |old(records)|
      ensures forall i | 0 <= i < |records| && i != cols.headerRow :: records[i] == old(records)[i]
      ensures CompletedFrom(cols, old(records), c, records)
    {
      var l := Layout(records[cols.headerRow], cols);
      CompletedReady(l);
      l := AddColumn(l, Answer);
      l := AddColumn(l, Evidence);
      l := AddColumn(l, Review);
      l := AddColumn(l, Confident);
      c := l.cols;
      records := records[cols.headerRow := l.header];
    }

    /** The part of the loop body that writes a decision. */
    method WriteDecision(a: Alphabet, row: nat, c: Columns, d: Decision)
      requires row < |records| && Ready(c)
      modifies this
      ensures records == old(records)[row := Write(a, c, old(records)[row], d)]
    {
      if d.answer != "" { SetCell(row, c.answer, d.answer); }
      if d.evidenceURL != "" {
        var existing := Trim(a, Cell(row, c.evidence));
        if existing == "" {
          SetCell(row, c.evidence, d.evidenceURL);
        } else if !Contains(existing, d.evidenceURL) {
          SetCell(row, c.evidence, existing + SEPARATOR + d.evidenceURL);
        }
      }
      SetCell(row, c.status, OutcomeName(d.outcome) + " — " + d.reason);
      SetCell(row, c.confidence, d.confidence);
    }

    method PreserveAnswer(row: nat, c: Columns)
      requires row < |records| && Ready(c)
      modifies this
      ensures records == old(records)[row := Keep(c, old(records)[row])]
    {
      SetCell(row, c.status, KEPT);
      SetCell(row, c.confidence, UNEVALUATED);
    }

    /** Reads a row: what to do with it and the question it asks. */
    method ReadRow(a: Alphabet, input: Input, c: Columns, row: nat) returns (t: Handling, q: Query)
      requires row < |records|
      ensures t == Treatment(a, c, records[row]) && q == QueryOf(a, input, c, records[row])
    {
      var question := Trim(a, Cell(row, c.question));
      var controlID := "";
      if c.control >= 0 { controlID := Trim(a, Cell(row, c.control)); }
      q := Query(input.accountID, controlID, question, input.evidenceURL, input.date, Coverage(input), input.checks);
      if question == "" && controlID == "" { return Skip, q; }
      if controlID == "" && IsInstruction(a, question) { return Skip, q; }
      t := if Trim(a, Cell(row, c.answer)) != "" then Preserve else Fill;
    }

    method ProcessRow(e: Engine, ghost decide: Query -> Decision, input: Input, c: Columns, row: nat, summary: Summary) returns (s: Summary)
      requires Answers(e, input.accountID, decide) && Ready(c) && row < |records|
      modifies this
      ensures records == old(records)[row := FillRow(e.text, decide, input, c, old(records)[row])]
      ensures s == Count(summary, RowOutcome(e.text, decide, input, c, old(records)[row]))
    {
      s := summary;
      var t, q := ReadRow(e.text, input, c, row);
      match t
      case Skip =>
      case Preserve =>
        s := CountOutcome(s, NeedsHuman);
        PreserveAnswer(row, c);
      case Fill =>
        var d := Decide.Decide(e, q);
        s := CountOutcome(s, d.outcome);
        WriteDecision(e.text, row, c, d);
    }

    method ProcessNext(e: Engine, ghost decide: Query -> Decision, input: Input, c: Columns, ghost rows: seq<seq<string>>,
                       row: nat, summary: Summary) returns (s: Summary)
      requires Answers(e, input.accountID, decide) && Ready(c) && c.headerRow < row < |records|
      requires Processed(e.text, decide, input, c, rows, row, records, summary)
      modifies this
      ensures Processed(e.text, decide, input, c, rows, row + 1, records, s) && |records| == |rows|
    {
      NextRow(e.text, decide, input, c, rows, row);
      NextOutcome(e.text, decide, input, c, rows, row);
      s := ProcessRow(e, decide, input, c, row, summary);
    }

    method ProcessRows(e: Engine, ghost decide: Query -> Decision, input: Input, c: Columns) returns (summary: Summary)
      requires Answers(e, input.accountID, decide) && Ready(c) && c.headerRow < |records|
      modifies this
      ensures Processed(e.text, decide, input, c, old(records), |old(records)|, records, summary)
    {
      summary := NOTHING;
      ghost var rows := records;
      NoRowYet(e.text, decide, input, c, rows);
      for row := c.headerRow + 1 to |records|
        invariant |records| == |rows|
        invariant Processed(e.text, decide, input, c, rows, row, records, summary)
      {
        summary := ProcessNext(e, decide, input, c, rows, row, summary);
      }
    }

    /** autofillCSV: None is ErrNoQuestionTable, and then nothing is written. */
    method Autofill(e: Engine, input: Input) returns (r: Option<Summary>, c: Columns)
      requires DistinctChecks(e.config.mappings)
      modifies this
      ensures r.None? <==> !HasTable(e.text, old(records))
      ensures r.None? ==> records == old(records)
      ensures r.Some? ==> Filled(e.text, Decider(e, input.accountID), input, old(records), c, records, r.value)
    {
      var cols, ok := DetectTable(e.text, records);
      if !ok { return None, cols; }
      DetectedSane(e.text, records[cols.headerRow], cols.headerRow);
      c := EnsureColumns(cols);
      ghost var mid, decide := records, Decider(e, input.accountID);
      var summary := ProcessRows(e, decide, input, c);
      FilledFrom(e.text, decide, input, old(records), cols, c, mid, records, summary);
      r := Some(summary);
    }
  }

  // ---- over the whole table ----

  function Reviewed(outcomes: seq<Option<Outcome>>): nat {
    if outcomes == [] then 0
    else var n := |outcomes| - 1; Reviewed(outcomes[..n]) + if outcomes[n].Some? then 1 else 0
  }

  /** CONSERVATION: every row reviewed is counted once. */
  lemma {:induction false} SummaryConserves(outcomes: seq<Option<Outcome>>)
    ensures
      var s := SummaryOf(outcomes);
      s.answered + s.partial + s.flagged + s.needsHuman == s.rowsReviewed == Reviewed(outcomes)
  {
    if outcomes != [] { SummaryConserves(outcomes[..|outcomes| - 1]); }
  }

  function At(outcomes: seq<Option<Outcome>>, o: Outcome): set<nat> {
    set i: nat | i < |outcomes| && outcomes[i] == Some(o)
  }

  lemma AtSnoc(outcomes: seq<Option<Outcome>>, last: Option<Outcome>, o: Outcome)
    ensures At(outcomes + [last], o) == At(outcomes, o) + if last == Some(o) then {|outcomes|} else {}
    ensures |At(outcomes + [last], o)| == |At(outcomes, o)| + if last == Some(o) then 1 else 0
  {
    var more := outcomes + [last];
    assert forall i: nat | i < |outcomes| :: more[i] == outcomes[i];
    assert At(more, o) == At(outcomes, o) + if last == Some(o) then {|outcomes|} else {};
    assert |outcomes| !in At(outcomes, o);
  }

  /** EACH COUNTER counts the rows of its own outcome. */
  lemma {:induction false} SummaryCounts(outcomes: seq<Option<Outcome>>)
    ensures
      var s := SummaryOf(outcomes);
      && s.answered == |At(outcomes, Answered)| && s.partial == |At(outcomes, Partial)|
      && s.flagged == |At(outcomes, Flagged)| && s.needsHuman == |At(outcomes, NeedsHuman)|
  {
    if outcomes != [] {
      var n := |outcomes| - 1;
      SummaryCounts(outcomes[..n]);
      assert outcomes == outcomes[..n] + [outcomes[n]];
      AtSnoc(outcomes[..n], outcomes[n], Answered);
      AtSnoc(outcomes[..n], outcomes[n], Partial);
      AtSnoc(outcomes[..n], outcomes[n], Flagged);
      AtSnoc(outcomes[..n], outcomes[n], NeedsHuman);
    }
  }

  // ---- what each row is worth ----

  /** The row asks something: it has a control ID, or a question that is no instruction. */
  predicate Asks(a: Alphabet, c: Columns, row: seq<string>) {
    var control := if c.control >= 0 then Trim(a, Get(row, c.control)) else "";
    var question := Trim(a, Get(row, c.question));
    control != "" || (question != "" && !Instructs(a, question))
  }

  /** The text mentions one of the phrases by which instructions are known. */
  predicate Instructs(a: Alphabet, question: string) {
    var text := NormalizeText(a, question);
    || ContainsPhrase(text, "answer each question") || ContainsPhrase(text, "questionnaire instructions")
    || ContainsPhrase(text, "completion guidance")
  }

  lemma ContainsThree(text: string, x: string, y: string, z: string)
    ensures ContainsOne(text, [x, y, z]) <==> ContainsPhrase(text, x) || ContainsPhrase(text, y) || ContainsPhrase(text, z)
  {
    assert [x, y, z][1..] == [y, z] && [y, z][1..] == [z];
    assert ContainsOne(text, [z]) <==> ContainsPhrase(text, z);
    assert ContainsOne(text, [y, z]) <==> ContainsPhrase(text, y) || ContainsOne(text, [z]);
  }

  lemma InstructsIff(a: Alphabet, question: string)
    ensures IsInstruction(a, question) <==> Instructs(a, question)
  {
    ContainsThree(NormalizeText(a, question), "answer each question", "questionnaire instructions", "completion guidance");
  }

  /** The query a row stands for. */
  function Asked(a: Alphabet, input: Input, c: Columns, row: seq<string>): Query {
    Query(input.accountID, if c.control >= 0 then Trim(a, Get(row, c.control)) else "", Trim(a, Get(row, c.question)),
          input.evidenceURL, input.date,
          if input.listed == 0 then "account coverage unavailable"
          else GoJson.Decimal(input.scanned) + " of " + GoJson.Decimal(input.listed) + " listed AWS accounts",
          input.checks)
  }

  /** The evidence already there stays at the front; the URL is added unless it is empty or there already. */
  predicate EvidenceWritten(a: Alphabet, before: string, url: string, after: string) {
    var existing := Trim(a, before);
    if url == "" || (existing != "" && Contains(existing, url)) then after == before
    else if existing == "" then after == url
    else after == existing + " | ZeroDock evidence: " + url
  }

  /** ROW BY ROW: a row that asks nothing is left as it is and not counted; one with an answer goes to a person
      and keeps its answer and evidence; any other is decided and its cells say so. */
  lemma RowMeans(a: Alphabet, decide: Query -> Decision, input: Input, c: Columns, row: seq<string>)
    requires Ready(c)
    ensures
      var r, o := FillRow(a, decide, input, c, row), RowOutcome(a, decide, input, c, row);
      if !Asks(a, c, row) then r == row && o == None
      else if Trim(a, Get(row, c.answer)) != "" then
        && o == Some(NeedsHuman) && Get(r, c.answer) == Get(row, c.answer) && Get(r, c.evidence) == Get(row, c.evidence)
        && Get(r, c.status) == "needs human" + " — " + "existing answer preserved"
        && Get(r, c.confidence) == "Not evaluated — existing answer"
      else
        var d := decide(Asked(a, input, c, row));
        && o == Some(d.outcome) && Get(r, c.answer) == (if d.answer == "" then Get(row, c.answer) else d.answer)
        && EvidenceWritten(a, Get(row, c.evidence), d.evidenceURL, Get(r, c.evidence))
        && Get(r, c.status) == StatusWord(d.outcome) + " — " + d.reason && Get(r, c.confidence) == d.confidence
  {
    InstructsIff(a, Trim(a, Get(row, c.question)));
    KeepCells(c, row);
    WriteCells(a, c, row, decide(QueryOf(a, input, c, row)));
    StatusWords(decide(QueryOf(a, input, c, row)).outcome);
  }

  /** "answered", "partial", "flagged" or "needs human". */
  function StatusWord(o: Outcome): string {
    if o == NeedsHuman then "needs human" else if o == Flagged then "flagged" else if o == Partial then "partial" else "answered"
  }

  lemma StatusWords(o: Outcome)
    ensures OutcomeName(o) == StatusWord(o)
  {
  }

  /** What a row below the header is worth: nothing, a person's attention, or the decision of its query. */
  function WorthOf(a: Alphabet, decide: Query -> Decision, input: Input, c: Columns, row: seq<string>): Option<Outcome> {
    if !Asks(a, c, row) then None
    else if Trim(a, Get(row, c.answer)) != "" then Some(NeedsHuman)
    else Some(decide(Asked(a, input, c, row)).outcome)
  }

  function Worths(a: Alphabet, decide: Query -> Decision, input: Input, c: Columns, rows: seq<seq<string>>): seq<Option<Outcome>> {
    seq(|rows|, i requires 0 <= i < |rows| => WorthOf(a, decide, input, c, rows[i]))
  }

  lemma WorthIs(a: Alphabet, decide: Query -> Decision, input: Input, c: Columns, row: seq<string>)
    requires Ready(c)
    ensures WorthOf(a, decide, input, c, row) == RowOutcome(a, decide, input, c, row)
  {
    RowMeans(a, decide, input, c, row);
  }

  lemma WorthsAre(a: Alphabet, decide: Query -> Decision, input: Input, c: Columns, rows: seq<seq<string>>)
    requires Ready(c)
    ensures Worths(a, decide, input, c, rows) == Outcomes(a, decide, input, c, rows)
  {
    forall i | 0 <= i < |rows| ensures WorthOf(a, decide, input, c, rows[i]) == RowOutcome(a, decide, input, c, rows[i]) {
      WorthIs(a, decide, input, c, rows[i]);
    }
  }

  /** Each counter counts the rows of its outcome. */
  predicate Tallies(worths: seq<Option<Outcome>>, s: Summary) {
    && s.answered == |At(worths, Answered)| && s.partial == |At(worths, Partial)| && s.flagged == |At(worths, Flagged)|
    && s.needsHuman == |At(worths, NeedsHuman)| && s.rowsReviewed == s.answered + s.partial + s.flagged + s.needsHuman
  }

  lemma SummaryTallies(worths: seq<Option<Outcome>>, outcomes: seq<Option<Outcome>>, s: Summary)
    requires worths == outcomes && s == SummaryOf(outcomes)
    ensures Tallies(worths, s)
  {
    SummaryCounts(outcomes);
    SummaryConserves(outcomes);
  }

  /** The whole table's summary, and what its rows are worth. */
  lemma BelowHeader(a: Alphabet, decide: Query -> Decision, input: Input, c: Columns, rows: seq<seq<string>>)
    returns (worths: seq<Option<Outcome>>, outcomes: seq<Option<Outcome>>)
    requires Ready(c) && c.headerRow < |rows|
    ensures worths == Worths(a, decide, input, c, rows[c.headerRow + 1..]) == outcomes
    ensures SummaryUpTo(a, decide, input, c, rows, |rows|) == SummaryOf(outcomes)
  {
    var below := rows[c.headerRow + 1..];
    assert rows[c.headerRow + 1..|rows|] == below;
    WorthsAre(a, decide, input, c, below);
    worths, outcomes := Worths(a, decide, input, c, below), Outcomes(a, decide, input, c, below);
  }

  /** THE SUMMARY OF A FILLED FILE counts, for each outcome, the rows below the header that were worth it. */
  lemma FilledCounts(a: Alphabet, decide: Query -> Decision, input: Input, was: seq<seq<string>>, c: Columns,
                     now: seq<seq<string>>, s: Summary)
    requires Filled(a, decide, input, was, c, now, s)
    ensures Tallies(Worths(a, decide, input, c, was[c.headerRow + 1..]), s)
  {
    var worths, outcomes := BelowHeader(a, decide, input, c, was);
    SummaryTallies(worths, outcomes, s);
  }
}
