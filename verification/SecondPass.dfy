/** internal/questionnaire/document.go: filling a file that was filled before. */
module SecondPass {
  import opened Wrappers
  import opened Text
  import opened QuestionnaireConfig
  import opened Decide
  import opened Document

  // ---- one row ----

  lemma EvidenceStable(a: Alphabet, cell: string, url: string)
    requires Trimmed(a, url)
    ensures EvidenceAfter(a, EvidenceAfter(a, cell, url), url) == EvidenceAfter(a, cell, url)
  {
    var existing := Trim(a, cell);
    TrimIdempotent(a, cell);
    TrimIdempotent(a, url);
    if url != "" {
      if existing == "" {
        assert Occurs(url, url, 0);
      } else if !Contains(existing, url) {
        var x := existing + SEPARATOR + url;
        assert Trimmed(a, x);
        TrimIdempotent(a, x);
        assert x[|existing + SEPARATOR|..|existing + SEPARATOR| + |url|] == url;
        assert Occurs(x, url, |existing + SEPARATOR|);
      }
    }
  }

  /** On a row without evidence a second pass keeps the cell exactly when the URL is trimmed or blank. */
  lemma EvidenceStableIff(a: Alphabet, cell: string, url: string)
    requires Blank(a, cell)
    ensures EvidenceAfter(a, EvidenceAfter(a, cell, url), url) == EvidenceAfter(a, cell, url)
            <==> Trimmed(a, url) || Blank(a, url)
  {
    TrimIdempotent(a, url);
    if Trimmed(a, url) {
      EvidenceStable(a, cell, url);
    } else {
      TrimShorter(a, url);
      var existing := Trim(a, url);
      if existing != "" {
        forall i ensures !Occurs(existing, url, i) {}
        assert |existing + SEPARATOR + url| > |url|;
      }
    }
  }

  /** A URL with a space in front of it is written again by the second pass. */
  lemma UntrimmedURLGrows(a: Alphabet, url: string)
    requires a.space == {' '} && url == " u"
    ensures EvidenceAfter(a, EvidenceAfter(a, "", url), url) != EvidenceAfter(a, "", url)
  {
    assert !Trimmed(a, url);
    assert TrimLeft(a, url) == "u";
    EvidenceStableIff(a, "", url);
  }

  /** On a row with evidence the cell is kept exactly when the URL is empty, is there already, or is
      still found after the trimming of the longer text; the last holds for every URL that does not
      end in white space. */
  lemma EvidenceBesideStableIff(a: Alphabet, cell: string, url: string)
    requires !Blank(a, cell) && !IsSpace(a, '|')
    ensures
      var existing := Trim(a, cell);
      var longer := existing + SEPARATOR + url;
      && (EvidenceAfter(a, EvidenceAfter(a, cell, url), url) == EvidenceAfter(a, cell, url)
          <==> url == "" || Contains(existing, url) || Contains(Trim(a, longer), url))
      && (url != "" && !IsSpace(a, url[|url| - 1]) ==> Contains(Trim(a, longer), url))
  {
    var existing := Trim(a, cell);
    var longer := existing + SEPARATOR + url;
    LongerTrimmed(a, cell, url);
    if url != "" && !IsSpace(a, url[|url| - 1]) {
      assert longer[|existing + SEPARATOR|..|existing + SEPARATOR| + |url|] == url;
      assert Occurs(longer, url, |existing + SEPARATOR|);
    }
  }

  lemma BarSplits(existing: string, url: string)
    ensures existing + SEPARATOR + url == (existing + " |") + (" ZeroDock evidence: " + url)
  {
    assert SEPARATOR == " |" + " ZeroDock evidence: ";
  }

  /** The text written beside existing evidence trims to more than that evidence. */
  lemma LongerTrimmed(a: Alphabet, cell: string, url: string)
    requires !Blank(a, cell) && !IsSpace(a, '|')
    ensures
      var existing := Trim(a, cell);
      var longer := existing + SEPARATOR + url;
      |existing| < |Trim(a, longer)| && (url != "" && !IsSpace(a, url[|url| - 1]) ==> Trim(a, longer) == longer)
  {
    var existing := Trim(a, cell);
    var head, rest := existing + " |", " ZeroDock evidence: " + url;
    TrimIdempotent(a, cell);
    BarSplits(existing, url);
    TrimRightKeeps(a, head, rest);
    assert (head + rest)[0] == existing[0];
  }

  lemma {:induction false} TrimLeftShorter(a: Alphabet, s: string)
    ensures |TrimLeft(a, s)| <= |s|
    ensures |TrimLeft(a, s)| == |s| ==> TrimLeft(a, s) == s
  {
    if s != "" && IsSpace(a, s[0]) { TrimLeftShorter(a, s[1..]); }
  }

  lemma TrimShorter(a: Alphabet, s: string)
    requires !Trimmed(a, s)
    ensures |Trim(a, s)| < |s|
  {
    TrimLeftShorter(a, s);
    TrimIdempotent(a, s);
  }

  lemma TwiceWith(a: Alphabet, decide: Query -> Decision, input: Input, c: Columns, row: seq<string>)
    requires Ready(c) && Trimmed(a, input.evidenceURL)
    requires decide(QueryOf(a, input, c, row)).evidenceURL in {"", input.evidenceURL}
    ensures
      var once := FillRow(a, decide, input, c, row);
      var twice := FillRow(a, decide, input, c, once);
      && Get(twice, c.answer) == Get(once, c.answer) && Get(twice, c.evidence) == Get(once, c.evidence)
      && Framed(c, row, twice)
  {
    var once := FillRow(a, decide, input, c, row);
    FillRowFrame(a, decide, input, c, row);
    FillRowFrame(a, decide, input, c, once);
    assert QueryOf(a, input, c, once) == QueryOf(a, input, c, row);
    var d := decide(QueryOf(a, input, c, row));
    if Treatment(a, c, row) == Fill && Treatment(a, c, once) == Fill {
      WriteCells(a, c, row, d);
      WriteCells(a, c, once, d);
      EvidenceStable(a, Get(row, c.evidence), d.evidenceURL);
    }
  }

  /** SECOND PASS: with the same inputs and a trimmed evidence URL, filling a filled row again changes
      neither its answer nor its evidence. */
  lemma SecondPassStable(e: Engine, decide: Query -> Decision, input: Input, c: Columns, row: seq<string>)
    requires Answers(e, input.accountID, decide) && Ready(c) && Trimmed(e.text, input.evidenceURL)
    ensures
      var once := FillRow(e.text, decide, input, c, row);
      var twice := FillRow(e.text, decide, input, c, once);
      && Get(twice, c.answer) == Get(once, c.answer) && Get(twice, c.evidence) == Get(once, c.evidence)
      && Framed(c, row, twice)
  {
    var q := QueryOf(e.text, input, c, row);
    OutcomeIff(e, MappingList(e.config, input.accountID), q);
    TwiceWith(e.text, decide, input, c, row);
  }

  // ---- the whole file ----

  /** The names the filler gives to columns are names it recognises. */
  predicate NamesRecognised(a: Alphabet) {
    forall k | k in {Answer, Evidence, Review, Confident} :: KindOf(a, ColumnName(k)) == k
  }

  predicate ReadBack(a: Alphabet, l: Layout) { HeaderColumns(a, l.header, l.cols.headerRow) == l.cols }

  lemma LastOfSnoc(ks: seq<Kind>, k: Kind, j: Kind)
    ensures LastOf(ks + [k], j) == if k == j then |ks| else LastOf(ks, j)
  {
    assert (ks + [k])[..|ks|] == ks;
  }

  lemma KindsSnoc(a: Alphabet, row: seq<string>, cell: string, headerRow: int)
    ensures HeaderColumns(a, row + [cell], headerRow) == WithColumn(HeaderColumns(a, row, headerRow), KindOf(a, cell), |row|)
  {
    var ks, k := Kinds(a, row), KindOf(a, cell);
    assert Kinds(a, row + [cell]) == ks + [k] && |ks| == |row|;
    LastOfSnoc(ks, k, Control);
    LastOfSnoc(ks, k, Question);
    LastOfSnoc(ks, k, Answer);
    LastOfSnoc(ks, k, Evidence);
    LastOfSnoc(ks, k, Review);
    LastOfSnoc(ks, k, Confident);
  }

  lemma AddColumnReadBack(a: Alphabet, l: Layout, k: Kind)
    requires NamesRecognised(a) && ReadBack(a, l)
    ensures ReadBack(a, AddColumn(l, k))
  {
    KindsSnoc(a, l.header, ColumnName(k), l.cols.headerRow);
  }

  /** The completed header is read back as the completed columns. */
  lemma CompletedReadBack(a: Alphabet, l: Layout)
    requires NamesRecognised(a) && ReadBack(a, l)
    ensures ReadBack(a, Completed(l))
  {
    AddColumnReadBack(a, l, Answer);
    AddColumnReadBack(a, AddColumn(l, Answer), Evidence);
    AddColumnReadBack(a, AddColumn(AddColumn(l, Answer), Evidence), Review);
    AddColumnReadBack(a, AddColumn(AddColumn(AddColumn(l, Answer), Evidence), Review), Confident);
  }

  /** No row below the header, among the first thirty, scores more than the header. */
  predicate NoneOutscores(a: Alphabet, rows: seq<seq<string>>, c: Columns) {
    0 <= c.headerRow < Limit(rows)
    && forall i | c.headerRow < i < Limit(rows) :: Scores(a, rows)[i] <= RowScore(c)
  }

  /** A complete header scores at least as much as the one it extends. */
  lemma CompletedScore(cols: Columns, c: Columns)
    requires Ready(c) && c.control == cols.control
    ensures RowScore(c) >= RowScore(cols)
  {
  }

  lemma SameScore(a: Alphabet, was: seq<seq<string>>, now: seq<seq<string>>, i: nat)
    requires |was| == |now| && i < Limit(was) && now[i] == was[i]
    ensures Scores(a, now)[i] == Scores(a, was)[i]
  {
  }

  lemma FirstHighestIff(was: seq<nat>, now: seq<nat>, h: nat)
    requires |was| == |now| && h < |was| && FirstHighest(was, h) && now[h] >= was[h]
    requires forall i | 0 <= i < h :: now[i] == was[i]
    ensures FirstHighest(now, h) <==> forall i | h < i < |now| :: now[i] <= now[h]
  {
  }

  /** What filling leaves of the table's place: a header that reads back. */
  lemma HeaderFacts(a: Alphabet, was: seq<seq<string>>, c: Columns, now: seq<seq<string>>) returns (cols: Columns)
    requires NamesRecognised(a) && TableKept(a, was, c, now)
    ensures IsTable(a, was, cols) && CompletedFrom(cols, was, c, now)
    ensures HeaderColumns(a, now[c.headerRow], c.headerRow) == c && RowScore(c) >= RowScore(cols)
  {
    cols :| IsTable(a, was, cols) && CompletedFrom(cols, was, c, now);
    var l := Layout(was[cols.headerRow], cols);
    DetectedSane(a, was[cols.headerRow], cols.headerRow);
    CompletedReady(l);
    CompletedReadBack(a, l);
    CompletedScore(cols, c);
  }

  /** DETECTED AGAIN: the filled file is read with the completed columns exactly when no row below the
      header outscores it. */
  lemma RedetectedIff(a: Alphabet, was: seq<seq<string>>, c: Columns, now: seq<seq<string>>)
    requires NamesRecognised(a) && TableKept(a, was, c, now)
    ensures IsTable(a, now, c) <==> NoneOutscores(a, now, c)
    ensures Ready(c) && HeaderColumns(a, now[c.headerRow], c.headerRow) == c
  {
    var cols := HeaderFacts(a, was, c, now);
    var h := c.headerRow;
    assert Scores(a, now)[h] == RowScore(c) && Scores(a, was)[h] == RowScore(cols);
    forall i | 0 <= i < h ensures Scores(a, now)[i] == Scores(a, was)[i] { SameScore(a, was, now, i); }
    FirstHighestIff(Scores(a, was), Scores(a, now), h);
  }

  /** A table with a control column scores as high as any row can, so it is always found again. */
  lemma ControlColumnSettles(a: Alphabet, now: seq<seq<string>>, c: Columns)
    requires Ready(c) && c.control >= 0 && c.headerRow < Limit(now)
    ensures NoneOutscores(a, now, c)
  {
    forall i | c.headerRow < i < Limit(now) ensures Scores(a, now)[i] <= RowScore(c) {
      assert Scores(a, now)[i] <= 6 && RowScore(c) == 6;
    }
  }

  lemma NothingMissing(c: Columns, was: seq<seq<string>>, d: Columns, now: seq<seq<string>>)
    requires Ready(c) && CompletedFrom(c, was, d, now)
    ensures d == c && now[c.headerRow] == was[c.headerRow]
  {
  }

  /** What the first run leaves for the second to find decides about its columns. */
  lemma SameColumns(a: Alphabet, now: seq<seq<string>>, c: Columns, found: Columns, d: Columns, again: seq<seq<string>>)
    requires Ready(c) && c.headerRow < |now| && HeaderColumns(a, now[c.headerRow], c.headerRow) == c
    requires IsTable(a, now, found) && CompletedFrom(found, now, d, again)
    ensures d == c <==> IsTable(a, now, c)
    ensures d == c ==> again[c.headerRow] == now[c.headerRow]
  {
    if IsTable(a, now, c) { TableUnique(a, now, found, c); }
    if found == c { NothingMissing(c, now, d, again); }
  }

  lemma RowsKept(e: Engine, decide: Query -> Decision, input: Input, was: seq<seq<string>>, c: Columns,
                 now: seq<seq<string>>, again: seq<seq<string>>, i: nat)
    requires Answers(e, input.accountID, decide) && Ready(c) && c.headerRow < i < |was| && Trimmed(e.text, input.evidenceURL)
    requires RowsFilled(e.text, decide, input, c, was, now) && RowsFilled(e.text, decide, input, c, now, again)
    ensures Get(again[i], c.answer) == Get(now[i], c.answer) && Get(again[i], c.evidence) == Get(now[i], c.evidence)
    ensures Framed(c, was[i], again[i])
  {
    SecondPassStable(e, decide, input, c, was[i]);
  }

  lemma TableFound(a: Alphabet, now: seq<seq<string>>, d: Columns, again: seq<seq<string>>) returns (found: Columns)
    requires TableKept(a, now, d, again)
    ensures IsTable(a, now, found) && CompletedFrom(found, now, d, again)
    ensures forall i | 0 <= i < d.headerRow :: again[i] == now[i]
  {
    found :| IsTable(a, now, found) && CompletedFrom(found, now, d, again);
  }

  lemma SameTable(a: Alphabet, now: seq<seq<string>>, c: Columns, d: Columns, again: seq<seq<string>>)
    requires Ready(c) && c.headerRow < |now| && HeaderColumns(a, now[c.headerRow], c.headerRow) == c
    requires TableKept(a, now, d, again)
    ensures d == c <==> IsTable(a, now, c)
    ensures d == c ==> forall i | 0 <= i <= c.headerRow :: again[i] == now[i]
  {
    var found := TableFound(a, now, d, again);
    SameColumns(a, now, c, found, d, again);
  }

  /** THE SECOND RUN of the filler on its own output uses the same columns exactly when no row outscores
      the header; it then leaves the header and everything above it alone. */
  lemma SecondRunColumns(a: Alphabet, decide: Query -> Decision, input: Input, was: seq<seq<string>>, c: Columns,
                         now: seq<seq<string>>, s: Summary, d: Columns, again: seq<seq<string>>, t: Summary)
    requires NamesRecognised(a) && Filled(a, decide, input, was, c, now, s) && Filled(a, decide, input, now, d, again, t)
    ensures d == c <==> NoneOutscores(a, now, c)
    ensures d == c ==> forall i | 0 <= i <= c.headerRow :: again[i] == now[i]
  {
    RedetectedIff(a, was, c, now);
    SameTable(a, now, c, d, again);
  }

  /** With the same columns and a trimmed evidence URL it changes no answer and no evidence. */
  lemma SecondRunCells(e: Engine, decide: Query -> Decision, input: Input, was: seq<seq<string>>, c: Columns,
                       now: seq<seq<string>>, again: seq<seq<string>>)
    requires Answers(e, input.accountID, decide) && Ready(c) && Trimmed(e.text, input.evidenceURL)
    requires RowsFilled(e.text, decide, input, c, was, now) && RowsFilled(e.text, decide, input, c, now, again)
    ensures forall i | c.headerRow < i < |was| ::
      Get(again[i], c.answer) == Get(now[i], c.answer) && Get(again[i], c.evidence) == Get(now[i], c.evidence)
  {
    forall i | c.headerRow < i < |was|
      ensures Get(again[i], c.answer) == Get(now[i], c.answer) && Get(again[i], c.evidence) == Get(now[i], c.evidence)
    {
      RowsKept(e, decide, input, was, c, now, again, i);
    }
  }

  // ---- with other columns ----

  /** The evidence cell already says what would be written. */
  predicate EvidenceStays(a: Alphabet, cell: string, url: string) { url == "" || Contains(Trim(a, cell), url) }

  lemma EvidenceStaysIff(a: Alphabet, cell: string, url: string)
    requires Trimmed(a, url)
    ensures EvidenceAfter(a, cell, url) == cell <==> EvidenceStays(a, cell, url)
  {
    var existing := Trim(a, cell);
    TrimIdempotent(a, cell);
    TrimIdempotent(a, url);
    if url != "" && existing != "" && !Contains(existing, url) {
      var longer := existing + SEPARATOR + url;
      assert Trimmed(a, longer);
      TrimIdempotent(a, longer);
      assert |longer| > |existing|;
    }
  }

  /** What a run writes into column k of a row below its header; None where it leaves the cell alone. */
  function WrittenAt(a: Alphabet, decide: Query -> Decision, input: Input, d: Columns, row: seq<string>, k: int): Option<string> {
    match Treatment(a, d, row)
    case Skip => None
    case Preserve => if k == d.status then Some(KEPT) else if k == d.confidence then Some(UNEVALUATED) else None
    case Fill => DecidedAt(a, d, row, decide(QueryOf(a, input, d, row)), k)
  }

  function DecidedAt(a: Alphabet, d: Columns, row: seq<string>, decision: Decision, k: int): Option<string> {
    if k == d.answer then if decision.answer == "" then None else Some(decision.answer)
    else if k == d.evidence then
      if EvidenceStays(a, Get(row, k), decision.evidenceURL) then None else Some(EvidenceAfter(a, Get(row, k), decision.evidenceURL))
    else if k == d.status then Some(OutcomeName(decision.outcome) + " — " + decision.reason)
    else if k == d.confidence then Some(decision.confidence)
    else None
  }

  /** The row is passed over, or the column is none the run writes there, or the same text is written. */
  predicate CellSurvives(a: Alphabet, decide: Query -> Decision, input: Input, d: Columns, row: seq<string>, k: int) {
    var text := WrittenAt(a, decide, input, d, row, k);
    text.None? || text.value == Get(row, k)
  }

  lemma KeptCell(d: Columns, row: seq<string>, k: int)
    requires Ready(d)
    ensures Get(Keep(d, row), k) == if k == d.status then KEPT else if k == d.confidence then UNEVALUATED else Get(row, k)
  {
    SetGet(row, d.status, KEPT);
    SetGet(Set(row, d.status, KEPT), d.confidence, UNEVALUATED);
  }

  lemma DecidedCell(a: Alphabet, d: Columns, row: seq<string>, decision: Decision, k: int)
    requires Ready(d) && Trimmed(a, decision.evidenceURL)
    ensures
      var text := DecidedAt(a, d, row, decision, k);
      Get(Write(a, d, row, decision), k) == Get(row, k) <==> text.None? || text.value == Get(row, k)
  {
    WriteCells(a, d, row, decision);
    EvidenceStaysIff(a, Get(row, k), decision.evidenceURL);
  }

  lemma CellSurvivesIff(a: Alphabet, decide: Query -> Decision, input: Input, d: Columns, row: seq<string>, k: int)
    requires Ready(d) && Trimmed(a, decide(QueryOf(a, input, d, row)).evidenceURL)
    ensures Get(FillRow(a, decide, input, d, row), k) == Get(row, k) <==> CellSurvives(a, decide, input, d, row, k)
  {
    match Treatment(a, d, row) {
      case Skip =>
      case Preserve => KeptCell(d, row, k);
      case Fill => DecidedCell(a, d, row, decide(QueryOf(a, input, d, row)), k);
    }
  }

  lemma AddedCells(l: Layout, k: Kind)
    requires k in {Answer, Evidence, Review, Confident}
    ensures l.header <= AddColumn(l, k).header
    ensures forall j | |l.header| <= j < |AddColumn(l, k).header| :: AddColumn(l, k).header[j] != ""
  {
  }

  /** A header keeps every cell but the empty ones beyond its end that become names. */
  lemma HeaderSurvivesIff(l: Layout, k: nat)
    ensures Get(Completed(l).header, k) == Get(l.header, k) <==> k < |l.header| || |Completed(l).header| <= k
  {
    var m := AddColumn(l, Answer);
    var n := AddColumn(m, Evidence);
    var o := AddColumn(n, Review);
    AddedCells(l, Answer);
    AddedCells(m, Evidence);
    AddedCells(n, Review);
    AddedCells(o, Confident);
  }

  /** What is under the answer and evidence columns of the first run stays. */
  predicate SameCells(c: Columns, before: seq<string>, after: seq<string>) {
    Get(after, c.answer) == Get(before, c.answer) && Get(after, c.evidence) == Get(before, c.evidence)
  }

  ghost predicate AnswersKept(c: Columns, now: seq<seq<string>>, again: seq<seq<string>>) {
    |again| == |now| && forall i | 0 <= i < |now| && c.headerRow < i :: SameCells(c, now[i], again[i])
  }

  /** Whether they will, for one row, told from the file as it is before the second run. */
  predicate RowSurvives(a: Alphabet, decide: Query -> Decision, input: Input, c: Columns, d: Columns, now: seq<seq<string>>, i: nat)
    requires i < |now|
  {
    if i < d.headerRow then true
    else if i == d.headerRow then
      var n, m := |now[i]|, |Completed(Layout(now[i], HeaderColumns(a, now[i], i))).header|;
      (c.answer < n || m <= c.answer) && (c.evidence < n || m <= c.evidence)
    else CellSurvives(a, decide, input, d, now[i], c.answer) && CellSurvives(a, decide, input, d, now[i], c.evidence)
  }

  ghost predicate AllSurvive(a: Alphabet, decide: Query -> Decision, input: Input, c: Columns, d: Columns, now: seq<seq<string>>) {
    forall i | 0 <= i < |now| && c.headerRow < i :: RowSurvives(a, decide, input, c, d, now, i)
  }

  /** No decision carries another URL than the one given. */
  ghost predicate GivenURL(decide: Query -> Decision, url: string) {
    forall q: Query | q.evidenceURL == url :: decide(q).evidenceURL == "" || decide(q).evidenceURL == url
  }

  lemma GivenURLHolds(e: Engine, accountID: string, decide: Query -> Decision, url: string)
    requires Answers(e, accountID, decide)
    ensures GivenURL(decide, url)
  {
    forall q: Query | q.evidenceURL == url ensures decide(q).evidenceURL == "" || decide(q).evidenceURL == url {
      OutcomeIff(e, MappingList(e.config, accountID), q);
    }
  }

  lemma RowSurvivesIff(a: Alphabet, decide: Query -> Decision, input: Input, c: Columns, now: seq<seq<string>>, d: Columns,
                       again: seq<seq<string>>, i: nat)
    requires Complete(c) && i < |now| && TableKept(a, now, d, again) && RowsFilled(a, decide, input, d, now, again)
    requires GivenURL(decide, input.evidenceURL) && Trimmed(a, input.evidenceURL)
    ensures SameCells(c, now[i], again[i]) <==> RowSurvives(a, decide, input, c, d, now, i)
  {
    var found := TableFound(a, now, d, again);
    if i == d.headerRow {
      var l := Layout(now[i], found);
      HeaderSurvivesIff(l, c.answer);
      HeaderSurvivesIff(l, c.evidence);
    } else if i > d.headerRow {
      assert decide(QueryOf(a, input, d, now[i])).evidenceURL in {"", input.evidenceURL};
      CellSurvivesIff(a, decide, input, d, now[i], c.answer);
      CellSurvivesIff(a, decide, input, d, now[i], c.evidence);
    }
  }

  /** EXACT: a second run with a trimmed evidence URL changes no answer and no evidence of the first if
      and only if no row outscores the header or every row survives the columns it finds instead. */
  lemma SecondRunKeepsIff(e: Engine, decide: Query -> Decision, input: Input, was: seq<seq<string>>, c: Columns,
                          now: seq<seq<string>>, s: Summary, d: Columns, again: seq<seq<string>>, t: Summary)
    requires NamesRecognised(e.text) && Answers(e, input.accountID, decide) && Trimmed(e.text, input.evidenceURL)
    requires Filled(e.text, decide, input, was, c, now, s) && Filled(e.text, decide, input, now, d, again, t)
    ensures AnswersKept(c, now, again) <==> NoneOutscores(e.text, now, c) || AllSurvive(e.text, decide, input, c, d, now)
  {
    RedetectedIff(e.text, was, c, now);
    SecondRunColumns(e.text, decide, input, was, c, now, s, d, again, t);
    if d == c { SecondRunCells(e, decide, input, was, c, now, again); }
    GivenURLHolds(e, input.accountID, decide, input.evidenceURL);
    forall i | 0 <= i < |now| && c.headerRow < i
      ensures SameCells(c, now[i], again[i]) <==> RowSurvives(e.text, decide, input, c, d, now, i)
    {
      RowSurvivesIff(e.text, decide, input, c, now, d, again, i);
    }
  }

  /** So a table with a control column keeps its answers and evidence. */
  lemma ControlColumnKeeps(e: Engine, decide: Query -> Decision, input: Input, was: seq<seq<string>>, c: Columns,
                           now: seq<seq<string>>, s: Summary, d: Columns, again: seq<seq<string>>, t: Summary)
    requires NamesRecognised(e.text) && Answers(e, input.accountID, decide) && Trimmed(e.text, input.evidenceURL) && c.control >= 0
    requires Filled(e.text, decide, input, was, c, now, s) && Filled(e.text, decide, input, now, d, again, t)
    ensures AnswersKept(c, now, again)
  {
    SecondRunKeepsIff(e, decide, input, was, c, now, s, d, again, t);
    var cols := HeaderFacts(e.text, was, c, now);
    ControlColumnSettles(e.text, now, c);
  }
}
