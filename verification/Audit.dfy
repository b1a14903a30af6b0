/** internal/questionnaire/audit.go: mapping coverage measured without a verdict. */
module Audit {
  import opened Wrappers
  import opened Sorting
  import opened Text
  import opened QuestionnaireConfig
  import opened Matcher
  import opened Decide
  import opened Document

  datatype AuditRow = AuditRow(
    sheet: string, row: int, controlID: string, question: string, matchMethod: MatchMethod, checkIDs: seq<string>, reason: string,
    partial: bool)

  function IDsOf(ms: seq<Mapping>): seq<string> {
    seq(|ms|, i requires 0 <= i < |ms| => ms[i].checkID)
  }

  const COMPOUND_REASON := "technical mapping found; policy/procedure documentation requires human input"

  /** The audit of a question, the sheet and the row number aside. */
  ghost function AuditSpec(e: Engine, ms: seq<Mapping>, controlID: string, question: string): AuditRow {
    var topic := TopicSpec(e.config, e.text, question);
    var matched := Matched(e.text, ms, controlID, question);
    if Restricted(e, question) then
      AuditRow("", 0, controlID, question, MatchRestricted, [], topic.0 + ": " + Quoted(e, topic.1), false)
    else if matched == [] then
      AuditRow("", 0, controlID, question, MatchUnmatched, [], GapSpec(e.text, question, e.config.evidenceGaps), false)
    else
      AuditRow("", 0, controlID, question, MethodUsed(e.text, ms, controlID), IDsOf(matched),
               if Compound(e, question) then COMPOUND_REASON else "", Compound(e, question))
  }

  method AuditOne(e: Engine, accountID: string, controlID: string, question: string) returns (detail: AuditRow)
    requires DistinctChecks(e.config.mappings)
    ensures detail == AuditSpec(e, MappingList(e.config, accountID), controlID, question)
  {
    var topic, phrase := RestrictedTopic(e.config, e.text, question);
    var technical := HasTechnicalLanguage(e.config, e.text, question);
    var compound := topic == "policy" && technical;
    if topic != "" && !compound {
      return AuditRow("", 0, controlID, question, MatchRestricted, [], topic + ": " + Quoted(e, phrase), false);
    }
    var mappings := MappingsForAccount(e.config, accountID);
    MappingListUnique(e.config, accountID, mappings);
    detail := AuditByMatch(e, mappings, controlID, question, compound);
  }

  method AuditByMatch(e: Engine, mappings: seq<Mapping>, controlID: string, question: string, compound: bool) returns (detail: AuditRow)
    requires DistinctChecks(mappings) && !Restricted(e, question) && compound == Compound(e, question)
    ensures detail == AuditSpec(e, mappings, controlID, question)
  {
    detail := AuditRow("", 0, controlID, question, MatchUnmatched, [], "", false);
    var matched, how := FindMatches(e.text, mappings, controlID, question);
    if matched == [] {
      var gap := EvidenceGapReason(e.config, e.text, question);
      return detail.(reason := gap);
    }
    detail := detail.(matchMethod := how);
    if compound { detail := detail.(partial := true, reason := COMPOUND_REASON); }
    var ids := CollectIDs(matched);
    detail := detail.(checkIDs := ids);
  }

  method CollectIDs(matched: seq<Mapping>) returns (ids: seq<string>)
    ensures ids == IDsOf(matched)
  {
    ids := [];
    for i := 0 to |matched|
      invariant ids == IDsOf(matched)[..i]
    {
      ids := ids + [matched[i].checkID];
    }
  }

  datatype Totals = Totals(rows: nat, exact: nat, keyword: nat, partial: nat, restricted: nat, unmatched: nat)

  /** The one counter a row goes to. */
  function Add(t: Totals, d: AuditRow): Totals {
    var u := t.(rows := t.rows + 1);
    if d.partial then u.(partial := t.partial + 1)
    else match d.matchMethod
      case MatchExact => u.(exact := t.exact + 1)
      case MatchKeyword => u.(keyword := t.keyword + 1)
      case MatchRestricted => u.(restricted := t.restricted + 1)
      case MatchUnmatched => u.(unmatched := t.unmatched + 1)
  }

  function TotalsOf(details: seq<AuditRow>): Totals {
    if details == [] then Totals(0, 0, 0, 0, 0, 0)
    else Add(TotalsOf(details[..|details| - 1]), details[|details| - 1])
  }

  /** The compound rows, and the other rows of a method. */
  function CompoundRows(details: seq<AuditRow>): set<int> { set i | 0 <= i < |details| && details[i].partial }

  function RowsBy(details: seq<AuditRow>, how: MatchMethod): set<int> {
    set i | 0 <= i < |details| && !details[i].partial && details[i].matchMethod == how
  }

  lemma RowsSnoc(details: seq<AuditRow>, d: AuditRow, how: MatchMethod)
    ensures |RowsBy(details + [d], how)| == |RowsBy(details, how)| + if !d.partial && d.matchMethod == how then 1 else 0
  {
    assert RowsBy(details + [d], how) == RowsBy(details, how) + if !d.partial && d.matchMethod == how then {|details|} else {};
  }

  lemma CompoundSnoc(details: seq<AuditRow>, d: AuditRow)
    ensures |CompoundRows(details + [d])| == |CompoundRows(details)| + if d.partial then 1 else 0
  {
    assert CompoundRows(details + [d]) == CompoundRows(details) + if d.partial then {|details|} else {};
  }

  /** EACH TOTAL counts the rows of its own kind. */
  lemma {:induction false} TotalsCount(details: seq<AuditRow>)
    ensures
      var t := TotalsOf(details);
      && t.rows == |details| && t.partial == |CompoundRows(details)|
      && t.exact == |RowsBy(details, MatchExact)| && t.keyword == |RowsBy(details, MatchKeyword)|
      && t.restricted == |RowsBy(details, MatchRestricted)| && t.unmatched == |RowsBy(details, MatchUnmatched)|
  {
    if details != [] {
      var n := |details| - 1;
      TotalsCount(details[..n]);
      assert details == details[..n] + [details[n]];
      RowsSnoc(details[..n], details[n], MatchExact);
      RowsSnoc(details[..n], details[n], MatchKeyword);
      RowsSnoc(details[..n], details[n], MatchRestricted);
      RowsSnoc(details[..n], details[n], MatchUnmatched);
      CompoundSnoc(details[..n], details[n]);
    }
  }

  /** audit is what auditRow computes for the account. */
  ghost predicate Audits(e: Engine, accountID: string, audit: (string, string) -> AuditRow) {
    && DistinctChecks(e.config.mappings)
    && forall id, question :: audit(id, question) == AuditSpec(e, MappingList(e.config, accountID), id, question)
  }

  ghost function Auditor(e: Engine, accountID: string): (audit: (string, string) -> AuditRow)
    requires DistinctChecks(e.config.mappings)
    ensures Audits(e, accountID, audit)
  {
    (id, question) => AuditSpec(e, MappingList(e.config, accountID), id, question)
  }

  /** The audit of one row of a table, numbered from 1 in the file; none for a row passed over. */
  function DetailOf(a: Alphabet, audit: (string, string) -> AuditRow, c: Columns, sheet: string, i: int, row: seq<string>): Option<AuditRow> {
    if Skipped(a, c, row) then None else Some(audit(ControlOf(a, c, row), QuestionOf(a, c, row)).(sheet := sheet, row := i + 1))
  }

  function AppendTo(details: seq<AuditRow>, d: Option<AuditRow>): seq<AuditRow> {
    if d.Some? then details + [d.value] else details
  }

  function Collected(ds: seq<Option<AuditRow>>): seq<AuditRow> {
    if ds == [] then [] else AppendTo(Collected(ds[..|ds| - 1]), ds[|ds| - 1])
  }

  lemma CollectedSnoc(ds: seq<Option<AuditRow>>, d: Option<AuditRow>)
    ensures Collected(ds + [d]) == AppendTo(Collected(ds), d)
  {
    assert (ds + [d])[..|ds|] == ds;
  }

  function Details(a: Alphabet, audit: (string, string) -> AuditRow, c: Columns, sheet: string, rows: seq<seq<string>>, k: int): seq<Option<AuditRow>>
    requires 0 <= c.headerRow < k <= |rows|
  {
    var first := c.headerRow + 1;
    seq(k - first, i requires 0 <= i < k - first => DetailOf(a, audit, c, sheet, first + i, rows[first + i]))
  }

  /** The audits of the rows below the header and above row k. */
  function DetailsUpTo(a: Alphabet, audit: (string, string) -> AuditRow, c: Columns, sheet: string, rows: seq<seq<string>>, k: int): seq<AuditRow>
    requires 0 <= c.headerRow < k <= |rows|
  {
    Collected(Details(a, audit, c, sheet, rows, k))
  }

  /** The loop has audited the rows above row k. */
  ghost predicate AuditedUpTo(a: Alphabet, audit: (string, string) -> AuditRow, c: Columns, sheet: string, rows: seq<seq<string>>, k: int,
                              before: seq<AuditRow>, details: seq<AuditRow>)
  {
    0 <= c.headerRow < k <= |rows| && details == before + DetailsUpTo(a, audit, c, sheet, rows, k)
  }

  lemma AuditedNext(a: Alphabet, audit: (string, string) -> AuditRow, c: Columns, sheet: string, rows: seq<seq<string>>, k: int,
                    before: seq<AuditRow>, details: seq<AuditRow>)
    requires AuditedUpTo(a, audit, c, sheet, rows, k, before, details) && k < |rows|
    ensures AuditedUpTo(a, audit, c, sheet, rows, k + 1, before, AppendTo(details, DetailOf(a, audit, c, sheet, k, rows[k])))
  {
    var d, ds := DetailOf(a, audit, c, sheet, k, rows[k]), Details(a, audit, c, sheet, rows, k);
    assert Details(a, audit, c, sheet, rows, k + 1) == ds + [d];
    CollectedSnoc(ds, d);
  }

  /** rowValue. */
  function RowValue(a: Alphabet, row: seq<string>, col: int): string {
    if col < 0 || col >= |row| then "" else Trim(a, row[col])
  }

  class MappingAudit {
    var rows: nat
    var exact: nat
    var keyword: nat
    var partial: nat
    var restricted: nat
    var unmatched: nat
    var details: seq<AuditRow>

    /** Every counter counts its rows among the details. */
    ghost predicate Valid()
      reads this
    {
      Totals(rows, exact, keyword, partial, restricted, unmatched) == TotalsOf(details)
    }

    /** The same, counter by counter. */
    ghost predicate Counted()
      reads this
    {
      && rows == |details| && partial == |CompoundRows(details)|
      && exact == |RowsBy(details, MatchExact)| && keyword == |RowsBy(details, MatchKeyword)|
      && restricted == |RowsBy(details, MatchRestricted)| && unmatched == |RowsBy(details, MatchUnmatched)|
    }

    lemma ValidCounts()
      requires Valid()
      ensures Counted()
    {
      TotalsCount(details);
    }

    constructor ()
      ensures Valid() && details == []
    {
      rows, exact, keyword, partial, restricted, unmatched := 0, 0, 0, 0, 0, 0;
      details := [];
    }

    method Append(detail: AuditRow)
      requires Valid()
      modifies this
      ensures Valid() && details == old(details) + [detail]
    {
      rows := rows + 1;
      if detail.partial {
        partial := partial + 1;
      } else {
        match detail.matchMethod
        case MatchExact => exact := exact + 1;
        case MatchKeyword => keyword := keyword + 1;
        case MatchRestricted => restricted := restricted + 1;
        case MatchUnmatched => unmatched := unmatched + 1;
      }
      details := details + [detail];
      assert details[..|details| - 1] == old(details);
    }

    method AuditTable(e: Engine, ghost audit: (string, string) -> AuditRow, accountID: string, c: Columns, sheet: string, table: seq<seq<string>>)
      requires Audits(e, accountID, audit) && Valid() && 0 <= c.headerRow < |table|
      modifies this
      ensures Valid() && Counted() && AuditedUpTo(e.text, audit, c, sheet, table, |table|, old(details), details)
    {
      var row := c.headerRow + 1;
      while row < |table|
        invariant Valid() && AuditedUpTo(e.text, audit, c, sheet, table, row, old(details), details)
      {
        AuditedNext(e.text, audit, c, sheet, table, row, old(details), details);
        AuditNext(e, audit, accountID, c, sheet, row, table[row]);
        row := row + 1;
      }
      ValidCounts();
    }

    method AuditNext(e: Engine, ghost audit: (string, string) -> AuditRow, accountID: string, c: Columns, sheet: string, row: int, cells: seq<string>)
      requires Audits(e, accountID, audit) && Valid()
      modifies this
      ensures Valid() && details == AppendTo(old(details), DetailOf(e.text, audit, c, sheet, row, cells))
    {
      var question := RowValue(e.text, cells, c.question);
      var controlID := "";
      if c.control >= 0 { controlID := RowValue(e.text, cells, c.control); }
      TrimEmpty(e.text);
      assert question == QuestionOf(e.text, c, cells) && controlID == ControlOf(e.text, c, cells);
      if question == "" && controlID == "" { return; }
      if controlID == "" && IsInstruction(e.text, question) { return; }
      var detail := AuditOne(e, accountID, controlID, question);
      Append(detail.(sheet := sheet, row := row + 1));
    }
  }

  /** The details are the audit of the table found in the rows. */
  ghost predicate AuditOf(a: Alphabet, audit: (string, string) -> AuditRow, sheet: string, rows: seq<seq<string>>,
                          cols: Columns, details: seq<AuditRow>)
  {
    IsTable(a, rows, cols) && AuditedUpTo(a, audit, cols, sheet, rows, |rows|, [], details)
  }

  // ---- whole files ----

  datatype Tab = Tab(name: string, rows: seq<seq<string>>)

  /** A file by its extension: records, sheets, or neither. */
  datatype File = Csv(records: seq<seq<string>>) | Workbook(tabs: seq<Tab>) | OtherFormat

  datatype AuditError = UnsupportedFormat | NoQuestionTable

  function TabsOf(f: File): seq<Tab> {
    match f
    case Csv(records) => [Tab("CSV", records)]
    case Workbook(tabs) => tabs
    case OtherFormat => []
  }

  /** Each column set belongs to the table of its sheet, where there is one. */
  predicate TablesOf(a: Alphabet, tabs: seq<Tab>, cols: seq<Columns>) {
    |cols| == |tabs| && forall i | 0 <= i < |tabs| && HasTable(a, tabs[i].rows) :: IsTable(a, tabs[i].rows, cols[i])
  }

  /** The audits of the sheets that have a table, one sheet after the other. */
  function TabsDetails(a: Alphabet, audit: (string, string) -> AuditRow, tabs: seq<Tab>, cols: seq<Columns>): seq<AuditRow>
    requires TablesOf(a, tabs, cols)
  {
    if tabs == [] then []
    else
      var n := |tabs| - 1;
      TabsDetails(a, audit, tabs[..n], cols[..n])
      + if HasTable(a, tabs[n].rows) then DetailsUpTo(a, audit, cols[n], tabs[n].name, tabs[n].rows, |tabs[n].rows|) else []
  }

  lemma TabsNext(a: Alphabet, audit: (string, string) -> AuditRow, tabs: seq<Tab>, cols: seq<Columns>, tab: Tab, c: Columns)
    requires TablesOf(a, tabs, cols) && (HasTable(a, tab.rows) ==> IsTable(a, tab.rows, c))
    ensures TablesOf(a, tabs + [tab], cols + [c])
    ensures TabsDetails(a, audit, tabs + [tab], cols + [c])
            == TabsDetails(a, audit, tabs, cols)
               + if HasTable(a, tab.rows) then DetailsUpTo(a, audit, c, tab.name, tab.rows, |tab.rows|) else []
  {
    assert (tabs + [tab])[..|tabs|] == tabs && (cols + [c])[..|cols|] == cols;
  }

  method AuditTab(e: Engine, ghost audit: (string, string) -> AuditRow, accountID: string, m: MappingAudit, tab: Tab) returns (c: Columns)
    requires Audits(e, accountID, audit) && m.Valid()
    modifies m
    ensures m.Valid() && (HasTable(e.text, tab.rows) ==> IsTable(e.text, tab.rows, c))
    ensures m.details == old(m.details)
      + if HasTable(e.text, tab.rows) then DetailsUpTo(e.text, audit, c, tab.name, tab.rows, |tab.rows|) else []
  {
    var found;
    c, found := DetectTable(e.text, tab.rows);
    if found { m.AuditTable(e, audit, accountID, c, tab.name, tab.rows); }
  }

  /** Engine.Audit: an unsupported format, or no row in any table that asks something, is an error. */
  method Audit(e: Engine, accountID: string, file: File) returns (m: MappingAudit, error: Option<AuditError>, ghost cols: seq<Columns>)
    requires DistinctChecks(e.config.mappings)
    ensures m.Valid() && m.Counted() && TablesOf(e.text, TabsOf(file), cols)
    ensures m.details == TabsDetails(e.text, Auditor(e, accountID), TabsOf(file), cols)
    ensures error == Some(UnsupportedFormat) <==> file.OtherFormat?
    ensures error == Some(NoQuestionTable) <==> !file.OtherFormat? && m.details == []
  {
    m := new MappingAudit();
    cols := [];
    m.ValidCounts();
    if file.OtherFormat? { return m, Some(UnsupportedFormat), cols; }
    var tabs := TabsOf(file);
    ghost var audit := Auditor(e, accountID);
    for i := 0 to |tabs|
      invariant m.Valid() && fresh(m) && TablesOf(e.text, tabs[..i], cols)
      invariant m.details == TabsDetails(e.text, audit, tabs[..i], cols)
    {
      var c := AuditTab(e, audit, accountID, m, tabs[i]);
      TabsNext(e.text, audit, tabs[..i], cols, tabs[i], c);
      assert tabs[..i + 1] == tabs[..i] + [tabs[i]];
      cols := cols + [c];
    }
    assert tabs[..|tabs|] == tabs;
    m.ValidCounts();
    error := if m.rows == 0 then Some(NoQuestionTable) else None;
  }

  lemma TrimEmpty(a: Alphabet)
    ensures Trim(a, "") == ""
  {
  }

  // ---- against the filler ----

  predicate NeedsPerson(d: AuditRow) { !d.partial && (d.matchMethod == MatchRestricted || d.matchMethod == MatchUnmatched) }

  lemma {:induction false} SelectAscending(ms: seq<Mapping>, keep: Mapping -> bool)
    requires Ascending(MappingLess, ms)
    ensures Ascending(MappingLess, Select(ms, keep))
  {
    if ms != [] {
      var n := |ms| - 1;
      SelectAscending(ms[..n], keep);
      SelectMember(ms[..n], keep);
      forall m | m in Select(ms[..n], keep) ensures MappingLess(m, ms[n]) {
        var i :| 0 <= i < n && ms[..n][i] == m;
        assert MappingLess(ms[i], ms[n]);
      }
    }
  }

  /** The audit's check IDs, in mapping order, are the decision's sorted ones. */
  lemma SameCheckIDs(a: Alphabet, ms: seq<Mapping>, controlID: string, question: string)
    requires Ascending(MappingLess, ms)
    ensures IDsOf(Matched(a, ms, controlID, question)) == CheckIDs(Matched(a, ms, controlID, question))
  {
    var matched := Matched(a, ms, controlID, question);
    SelectAscending(ms, m => MapsTo(a, m, NormalizeControlID(a, controlID)));
    SelectAscending(ms, m => MappingScore(a, question, m) == Best(a, question, ms));
    AscendingIDs(matched);
  }

  lemma AscendingIDs(ms: seq<Mapping>)
    requires Ascending(MappingLess, ms)
    ensures IDsOf(ms) == CheckIDs(ms)
  {
    var ids := IDsOf(ms);
    forall i, j | 0 <= i < j < |ids| ensures GoLess(ids[i], ids[j]) {
      assert MappingLess(ms[i], ms[j]);
    }
    var s := set m | m in ms :: m.checkID;
    forall id ensures id in Elems(ids) <==> id in s {
      if id in Elems(ids) { var i :| 0 <= i < |ids| && ids[i] == id; assert ms[i] in ms; }
      if id in s { var m :| m in ms && m.checkID == id; var i :| 0 <= i < |ms| && ms[i] == m; assert ids[i] == id; }
    }
    GoLessTotal(s);
    ArrangeUnique(GoLess, s, ids);
  }

  /** SAME ROW, SAME MATCH: whatever the verdict, the audit of a question and its decision name the
      same method and checks, and the row needs a person exactly when the audit finds no mapping. */
  lemma RowsAgree(e: Engine, ms: seq<Mapping>, q: Query)
    requires Ascending(MappingLess, ms)
    ensures
      var d, audit := DecideSpec(e, ms, q), AuditSpec(e, ms, q.controlID, q.question);
      && d.matchMethod == audit.matchMethod && d.checkIDs == audit.checkIDs
      && (d.outcome == NeedsHuman <==> !audit.partial && (audit.matchMethod == MatchRestricted || audit.matchMethod == MatchUnmatched))
      && (audit.partial ==> d.outcome == Partial || d.outcome == Flagged)
      && (audit.partial <==> d.outcome != NeedsHuman && d.restrictedAs == "policy")
      && (audit.matchMethod == MatchUnmatched ==>
            d.reason == if audit.reason != "" then audit.reason else "no trustworthy control-ID or keyword match")
      && (audit.matchMethod == MatchRestricted ==>
            audit.reason == d.restrictedAs + ": " + Quoted(e, TopicSpec(e.config, e.text, q.question).1))
  {
    OutcomeIff(e, ms, q);
    var matched := Matched(e.text, ms, q.controlID, q.question);
    SameCheckIDs(e.text, ms, q.controlID, q.question);
    if !Restricted(e, q.question) && matched != [] { MatchedOutcome(e, ms, q); }
  }

  lemma MappingListAscending(c: Config, accountID: string)
    requires DistinctChecks(c.mappings)
    ensures Ascending(MappingLess, MappingList(c, accountID))
  {
    var ms := EffectiveMappings(c.mappings, OverridesOf(c, accountID));
    EffectiveDistinct(c.mappings, OverridesOf(c, accountID));
    DistinctChecksTotal(ms);
  }

  /** The audit reads the columns as detected, the filler after completing them. */
  predicate SameTable(cols: Columns, c: Columns) {
    cols.headerRow == c.headerRow && cols.control == c.control && cols.question == c.question
  }

  /** What the two reports have in common. */
  predicate Agree(s: Summary, t: Totals) {
    && s.answered + s.partial + s.flagged == t.exact + t.keyword + t.partial
    && s.needsHuman == t.restricted + t.unmatched
    && s.rowsReviewed == t.rows
    && s.rowsReviewed == s.answered + s.partial + s.flagged + s.needsHuman
    && t.rows == t.exact + t.keyword + t.partial + t.restricted + t.unmatched
  }

  lemma AgreeStep(s: Summary, t: Totals, o: Option<Outcome>, d: Option<AuditRow>)
    requires Agree(s, t) && Alike(o, d)
    ensures Agree(Count(s, o), if d.Some? then Add(t, d.value) else t)
  {
  }

  /** No row that asks something has an answer yet. */
  predicate Unanswered(a: Alphabet, c: Columns, rows: seq<seq<string>>) {
    forall i | 0 <= i < |rows| && c.headerRow < i :: Treatment(a, c, rows[i]) != Preserve
  }

  /** Both count the row, or neither; and both leave it to a person, or neither. */
  predicate Alike(o: Option<Outcome>, d: Option<AuditRow>) {
    (o.Some? <==> d.Some?) && (o.Some? ==> (o.value == NeedsHuman <==> NeedsPerson(d.value)))
  }

  predicate AllAlike(os: seq<Option<Outcome>>, ds: seq<Option<AuditRow>>) {
    |os| == |ds| && forall i | 0 <= i < |os| :: Alike(os[i], ds[i])
  }

  lemma {:induction false} CountsAgree(os: seq<Option<Outcome>>, ds: seq<Option<AuditRow>>)
    requires AllAlike(os, ds)
    ensures Agree(SummaryOf(os), TotalsOf(Collected(ds)))
  {
    if os != [] {
      var n := |os| - 1;
      CountsAgree(os[..n], ds[..n]);
      AgreeStep(SummaryOf(os[..n]), TotalsOf(Collected(ds[..n])), os[n], ds[n]);
      TotalsStep(Collected(ds[..n]), ds[n]);
    }
  }

  lemma TotalsStep(details: seq<AuditRow>, d: Option<AuditRow>)
    ensures TotalsOf(AppendTo(details, d)) == if d.Some? then Add(TotalsOf(details), d.value) else TotalsOf(details)
  {
    if d.Some? { assert (details + [d.value])[..|details|] == details; }
  }

  /** Questions for a person are the same for both. */
  ghost predicate SamePersons(decide: Query -> Decision, audit: (string, string) -> AuditRow) {
    forall q :: decide(q).outcome == NeedsHuman <==> NeedsPerson(audit(q.controlID, q.question))
  }

  lemma RowAlike(a: Alphabet, decide: Query -> Decision, audit: (string, string) -> AuditRow, input: Input,
                 cols: Columns, c: Columns, sheet: string, i: int, row: seq<string>)
    requires SamePersons(decide, audit) && SameTable(cols, c) && Treatment(a, c, row) != Preserve
    ensures Alike(RowOutcome(a, decide, input, c, row), DetailOf(a, audit, cols, sheet, i, row))
  {
    var q := QueryOf(a, input, c, row);
    assert decide(q).outcome == NeedsHuman <==> NeedsPerson(audit(q.controlID, q.question));
  }

  /** Row by row below the header, both review the row or neither does, and both leave it to a person or
      neither does. */
  ghost predicate RowsAlike(a: Alphabet, decide: Query -> Decision, audit: (string, string) -> AuditRow, input: Input,
                            cols: Columns, c: Columns, sheet: string, rows: seq<seq<string>>)
  {
    forall i | 0 <= i < |rows| && c.headerRow < i :: Alike(RowOutcome(a, decide, input, c, rows[i]), DetailOf(a, audit, cols, sheet, i, rows[i]))
  }

  lemma RowsAreAlike(a: Alphabet, decide: Query -> Decision, audit: (string, string) -> AuditRow, input: Input,
                     cols: Columns, c: Columns, sheet: string, rows: seq<seq<string>>)
    requires SamePersons(decide, audit) && SameTable(cols, c) && Unanswered(a, c, rows)
    ensures RowsAlike(a, decide, audit, input, cols, c, sheet, rows)
  {
    forall i | 0 <= i < |rows| && c.headerRow < i
      ensures Alike(RowOutcome(a, decide, input, c, rows[i]), DetailOf(a, audit, cols, sheet, i, rows[i]))
    {
      RowAlike(a, decide, audit, input, cols, c, sheet, i, rows[i]);
    }
  }

  /** What the two lists of rows have at one place. */
  lemma AlikeOne(a: Alphabet, decide: Query -> Decision, audit: (string, string) -> AuditRow, input: Input,
                 cols: Columns, c: Columns, sheet: string, rows: seq<seq<string>>, i: nat)
    requires RowsAlike(a, decide, audit, input, cols, c, sheet, rows) && SameTable(cols, c) && 0 <= c.headerRow
    requires c.headerRow + 1 + i < |rows|
    ensures Alike(Outcomes(a, decide, input, c, rows[c.headerRow + 1..|rows|])[i], Details(a, audit, cols, sheet, rows, |rows|)[i])
  {
    var k := c.headerRow + 1 + i;
    assert Alike(RowOutcome(a, decide, input, c, rows[k]), DetailOf(a, audit, cols, sheet, k, rows[k]));
  }

  lemma AlikeAt(a: Alphabet, decide: Query -> Decision, audit: (string, string) -> AuditRow, input: Input,
                cols: Columns, c: Columns, sheet: string, rows: seq<seq<string>>)
    returns (os: seq<Option<Outcome>>, ds: seq<Option<AuditRow>>)
    requires RowsAlike(a, decide, audit, input, cols, c, sheet, rows) && SameTable(cols, c) && 0 <= c.headerRow < |rows|
    ensures os == Outcomes(a, decide, input, c, rows[c.headerRow + 1..|rows|]) && ds == Details(a, audit, cols, sheet, rows, |rows|)
    ensures AllAlike(os, ds)
    ensures SummaryUpTo(a, decide, input, c, rows, |rows|) == SummaryOf(os)
    ensures DetailsUpTo(a, audit, cols, sheet, rows, |rows|) == Collected(ds)
  {
    os, ds := Outcomes(a, decide, input, c, rows[c.headerRow + 1..|rows|]), Details(a, audit, cols, sheet, rows, |rows|);
    forall i | 0 <= i < |os| ensures Alike(os[i], ds[i]) {
      AlikeOne(a, decide, audit, input, cols, c, sheet, rows, i);
    }
  }

  /** Alike rows make equal counts. */
  lemma AlikeAgree(a: Alphabet, decide: Query -> Decision, audit: (string, string) -> AuditRow, input: Input,
                   cols: Columns, c: Columns, sheet: string, rows: seq<seq<string>>)
    requires RowsAlike(a, decide, audit, input, cols, c, sheet, rows) && SameTable(cols, c) && 0 <= c.headerRow < |rows|
    ensures Agree(SummaryUpTo(a, decide, input, c, rows, |rows|), TotalsOf(DetailsUpTo(a, audit, cols, sheet, rows, |rows|)))
  {
    var os, ds := AlikeAt(a, decide, audit, input, cols, c, sheet, rows);
    CountsAgree(os, ds);
  }

  lemma SamePerson(e: Engine, decide: Query -> Decision, audit: (string, string) -> AuditRow, accountID: string, q: Query)
    requires Answers(e, accountID, decide) && Audits(e, accountID, audit)
    ensures decide(q).outcome == NeedsHuman <==> NeedsPerson(audit(q.controlID, q.question))
  {
    MappingListAscending(e.config, accountID);
    RowsAgree(e, MappingList(e.config, accountID), q);
  }

  lemma SamePersonsHold(e: Engine, decide: Query -> Decision, audit: (string, string) -> AuditRow, accountID: string)
    requires Answers(e, accountID, decide) && Audits(e, accountID, audit)
    ensures SamePersons(decide, audit)
  {
    forall q ensures decide(q).outcome == NeedsHuman <==> NeedsPerson(audit(q.controlID, q.question)) {
      SamePerson(e, decide, audit, accountID, q);
    }
  }

  /** AUDIT AND FILLER AGREE on a table without answers, for every verdict: on which rows they review and
      which of those they leave to a person, and so on their totals. */
  lemma TablesAgree(e: Engine, decide: Query -> Decision, audit: (string, string) -> AuditRow, input: Input,
                    cols: Columns, c: Columns, sheet: string, rows: seq<seq<string>>)
    requires Answers(e, input.accountID, decide) && Audits(e, input.accountID, audit)
    requires SameTable(cols, c) && Unanswered(e.text, c, rows) && 0 <= c.headerRow < |rows|
    ensures RowsAlike(e.text, decide, audit, input, cols, c, sheet, rows)
    ensures Agree(SummaryUpTo(e.text, decide, input, c, rows, |rows|), TotalsOf(DetailsUpTo(e.text, audit, cols, sheet, rows, |rows|)))
  {
    SamePersonsHold(e, decide, audit, input.accountID);
    RowsAreAlike(e.text, decide, audit, input, cols, c, sheet, rows);
    AlikeAgree(e.text, decide, audit, input, cols, c, sheet, rows);
  }

  /** The details hold the audits of the rows, each once and in order. */
  lemma {:induction false} CollectedMember(ds: seq<Option<AuditRow>>, d: AuditRow)
    ensures d in Collected(ds) <==> Some(d) in ds
  {
    if ds != [] {
      CollectedMember(ds[..|ds| - 1], d);
      assert ds == ds[..|ds| - 1] + [ds[|ds| - 1]];
    }
  }

  /** The row asks something, and d is its audit, numbered from 1. */
  predicate IsDetail(a: Alphabet, audit: (string, string) -> AuditRow, c: Columns, sheet: string, i: int, row: seq<string>, d: AuditRow) {
    && Asks(a, c, row)
    && var control := if c.control >= 0 then Trim(a, Get(row, c.control)) else "";
       d == audit(control, Trim(a, Get(row, c.question))).(sheet := sheet, row := i + 1)
  }

  lemma DetailIs(a: Alphabet, audit: (string, string) -> AuditRow, c: Columns, sheet: string, i: int, row: seq<string>, d: AuditRow)
    ensures DetailOf(a, audit, c, sheet, i, row) == Some(d) <==> IsDetail(a, audit, c, sheet, i, row, d)
  {
    InstructsIff(a, Trim(a, Get(row, c.question)));
    assert Asks(a, c, row) <==> !Skipped(a, c, row);
  }

  /** d is the audit of row i. */
  predicate AuditsRow(a: Alphabet, audit: (string, string) -> AuditRow, c: Columns, sheet: string, rows: seq<seq<string>>, i: int, d: AuditRow) {
    0 <= i < |rows| && c.headerRow < i && IsDetail(a, audit, c, sheet, i, rows[i], d)
  }

  lemma DetailsAt(a: Alphabet, audit: (string, string) -> AuditRow, c: Columns, sheet: string, rows: seq<seq<string>>, k: int, d: AuditRow)
    requires 0 <= c.headerRow < |rows| && 0 <= k < |Details(a, audit, c, sheet, rows, |rows|)|
    ensures Details(a, audit, c, sheet, rows, |rows|)[k] == Some(d) <==> AuditsRow(a, audit, c, sheet, rows, c.headerRow + 1 + k, d)
  {
    DetailIs(a, audit, c, sheet, c.headerRow + 1 + k, rows[c.headerRow + 1 + k], d);
  }

  lemma DetailsMember(a: Alphabet, audit: (string, string) -> AuditRow, c: Columns, sheet: string, rows: seq<seq<string>>, d: AuditRow)
    requires 0 <= c.headerRow < |rows|
    ensures d in DetailsUpTo(a, audit, c, sheet, rows, |rows|) <==> exists i :: AuditsRow(a, audit, c, sheet, rows, i, d)
  {
    var ds, first := Details(a, audit, c, sheet, rows, |rows|), c.headerRow + 1;
    CollectedMember(ds, d);
    if Some(d) in ds {
      var k :| 0 <= k < |ds| && ds[k] == Some(d);
      DetailsAt(a, audit, c, sheet, rows, k, d);
    } else if i :| AuditsRow(a, audit, c, sheet, rows, i, d) {
      DetailsAt(a, audit, c, sheet, rows, i - first, d);
    }
  }

  lemma DetectedTable(a: Alphabet, rows: seq<seq<string>>, cols: Columns, c: Columns, filled: seq<seq<string>>)
    requires IsTable(a, rows, cols) && TableKept(a, rows, c, filled)
    ensures SameTable(cols, c)
  {
    var found :| IsTable(a, rows, found) && CompletedFrom(found, rows, c, filled);
    DetectedSane(a, rows[found.headerRow], found.headerRow);
    CompletedReady(Layout(rows[found.headerRow], found));
    TableUnique(a, rows, found, cols);
  }

  /** For one file: the filler's run and a fresh audit of the same records agree. */
  lemma FileAgrees(e: Engine, input: Input, rows: seq<seq<string>>, c: Columns, filled: seq<seq<string>>, summary: Summary,
                   cols: Columns, sheet: string, details: seq<AuditRow>)
    requires DistinctChecks(e.config.mappings)
    requires Filled(e.text, Decider(e, input.accountID), input, rows, c, filled, summary)
    requires AuditOf(e.text, Auditor(e, input.accountID), sheet, rows, cols, details)
    requires Unanswered(e.text, c, rows)
    ensures RowsAlike(e.text, Decider(e, input.accountID), Auditor(e, input.accountID), input, cols, c, sheet, rows)
    ensures Agree(summary, TotalsOf(details))
  {
    DetectedTable(e.text, rows, cols, c, filled);
    TablesAgree(e, Decider(e, input.accountID), Auditor(e, input.accountID), input, cols, c, sheet, rows);
    assert details == DetailsUpTo(e.text, Auditor(e, input.accountID), cols, sheet, rows, |rows|);
  }
}
