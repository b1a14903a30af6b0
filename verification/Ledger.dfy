/** internal/store/store.go: the append-only ledger and CreateVerdict, first as one transaction on a
    mutable store, then as steps of any number of interleaved transactions. The statement that
    takes an account's share_links row holds that row until the transaction ends. */
module Ledger {
  import opened Wrappers
  import opened Sorting

  /** The submitted fields the ledger's own logic reads; times are instants. */
  datatype NewVerdict = NewVerdict(
    scanID: string, accountID: string, orgID: Option<string>, attestedAt: int,
    accountsListed: seq<string>, accountsScanned: seq<string>)

  datatype VerdictRow = VerdictRow(id: nat, token: string, verdict: NewVerdict)

  datatype HistoryRow = HistoryRow(
    token: string, verdictID: nat, orgID: Option<string>, accountID: string, status: string,
    firstSeenAt: int, observedAt: int)

  /** links is share_links (account to token); nextID is the sequence behind verdicts.id, which a
      rollback does not rewind. */
  datatype Db = Db(links: map<string, string>, verdicts: seq<VerdictRow>, history: seq<HistoryRow>, nextID: nat)

  // ---- first_seen_at ----

  predicate Matches(r: HistoryRow, token: string, account: string) {
    r.token == token && r.accountID == account
  }

  /** SELECT MIN(first_seen_at) ... WHERE share_token = token AND account_id = account. */
  function MinFirstSeen(rows: seq<HistoryRow>, token: string, account: string): Option<int> {
    if rows == [] then None
    else
      var rest := MinFirstSeen(rows[1..], token, account);
      if !Matches(rows[0], token, account) then rest
      else if rest.Some? && rest.value < rows[0].firstSeenAt then rest
      else Some(rows[0].firstSeenAt)
  }

  /** The first row ever inserted for this token and account. */
  function FirstRow(rows: seq<HistoryRow>, token: string, account: string): Option<HistoryRow> {
    if rows == [] then None
    else if Matches(rows[0], token, account) then Some(rows[0])
    else FirstRow(rows[1..], token, account)
  }

  /** Every row carries the observed_at of the first row of its token and account. */
  ghost predicate FirstSeenConstant(rows: seq<HistoryRow>) {
    forall i | 0 <= i < |rows| ::
      var f := FirstRow(rows, rows[i].token, rows[i].accountID);
      f.Some? && rows[i].firstSeenAt == f.value.observedAt
  }

  lemma {:induction false} FirstRowIn(rows: seq<HistoryRow>, token: string, account: string)
    ensures FirstRow(rows, token, account).Some? <==> exists r :: r in rows && Matches(r, token, account)
    ensures FirstRow(rows, token, account).Some? ==>
      var f := FirstRow(rows, token, account).value; f in rows && Matches(f, token, account)
  {
    if rows != [] {
      FirstRowIn(rows[1..], token, account);
      assert forall r :: r in rows <==> r == rows[0] || r in rows[1..];
    }
  }

  lemma {:induction false} FirstRowAppend(a: seq<HistoryRow>, b: seq<HistoryRow>, token: string, account: string)
    ensures FirstRow(a + b, token, account) ==
      if FirstRow(a, token, account).Some? then FirstRow(a, token, account) else FirstRow(b, token, account)
  {
    if a == [] {
      assert a + b == b;
    } else {
      assert (a + b)[1..] == a[1..] + b;
      FirstRowAppend(a[1..], b, token, account);
    }
  }

  lemma {:induction false} MinOfConstant(rows: seq<HistoryRow>, token: string, account: string, t: int)
    requires forall r | r in rows && Matches(r, token, account) :: r.firstSeenAt == t
    ensures MinFirstSeen(rows, token, account) ==
      if exists r :: r in rows && Matches(r, token, account) then Some(t) else None
  {
    if rows != [] {
      assert forall r :: r in rows <==> r == rows[0] || r in rows[1..];
      MinOfConstant(rows[1..], token, account, t);
    }
  }

  /** On a consistent table the MIN is the observed_at of the first row. */
  lemma MinIsFirst(rows: seq<HistoryRow>, token: string, account: string)
    requires FirstSeenConstant(rows)
    ensures
      var f := FirstRow(rows, token, account);
      MinFirstSeen(rows, token, account) == if f.Some? then Some(f.value.observedAt) else None
  {
    FirstRowIn(rows, token, account);
    var f := FirstRow(rows, token, account);
    var t := if f.Some? then f.value.observedAt else 0;
    forall r | r in rows && Matches(r, token, account) ensures r.firstSeenAt == t {
      var i :| 0 <= i < |rows| && rows[i] == r;
    }
    MinOfConstant(rows, token, account, t);
  }

  // ---- the rows one verdict adds ----

  function Status(v: NewVerdict, account: string): string {
    if account in v.accountsScanned then "scanned" else "listed_unreachable"
  }

  function Row(history: seq<HistoryRow>, token: string, id: nat, v: NewVerdict, account: string): HistoryRow {
    var f := FirstRow(history, token, account);
    HistoryRow(token, id, v.orgID, account, Status(v, account),
               if f.Some? then f.value.observedAt else v.attestedAt, v.attestedAt)
  }

  /** The first k rows of a verdict: one per listed account, in listed order. */
  function Rows(history: seq<HistoryRow>, token: string, id: nat, v: NewVerdict, k: nat): seq<HistoryRow>
    requires k <= |v.accountsListed|
  {
    seq(k, i requires 0 <= i < k => Row(history, token, id, v, v.accountsListed[i]))
  }

  /** What insertAccountHistory inserts for account number k, given the rows its transaction sees. */
  function NextRow(visible: seq<HistoryRow>, token: string, id: nat, v: NewVerdict, k: nat): HistoryRow
    requires k < |v.accountsListed|
  {
    var account := v.accountsListed[k];
    HistoryRow(token, id, v.orgID, account, Status(v, account),
               MinFirstSeen(visible, token, account).GetOr(v.attestedAt), v.attestedAt)
  }

  lemma {:induction false} NoMatch(rows: seq<HistoryRow>, token: string, account: string)
    requires forall r | r in rows :: !Matches(r, token, account)
    ensures MinFirstSeen(rows, token, account) == None
  {
    if rows != [] { NoMatch(rows[1..], token, account); }
  }

  lemma {:induction false} MinAppendNoMatch(a: seq<HistoryRow>, b: seq<HistoryRow>, token: string, account: string)
    requires forall r | r in b :: !Matches(r, token, account)
    ensures MinFirstSeen(a + b, token, account) == MinFirstSeen(a, token, account)
  {
    if a == [] {
      assert a + b == b;
      NoMatch(b, token, account);
    } else {
      assert (a + b)[1..] == a[1..] + b;
      MinAppendNoMatch(a[1..], b, token, account);
    }
  }

  /** The row computed by MIN over the committed rows and the transaction's own is the specified one. */
  lemma NextRowIsRow(history: seq<HistoryRow>, token: string, id: nat, v: NewVerdict, k: nat)
    requires FirstSeenConstant(history) && k < |v.accountsListed|
    requires forall i | 0 <= i < k :: v.accountsListed[i] != v.accountsListed[k]
    ensures NextRow(history + Rows(history, token, id, v, k), token, id, v, k)
      == Row(history, token, id, v, v.accountsListed[k])
  {
    var account := v.accountsListed[k];
    MinAppendNoMatch(history, Rows(history, token, id, v, k), token, account);
    MinIsFirst(history, token, account);
  }

  lemma AppendedRowsConsistent(history: seq<HistoryRow>, token: string, id: nat, v: NewVerdict)
    requires FirstSeenConstant(history) && NoDuplicates(v.accountsListed)
    ensures FirstSeenConstant(history + Rows(history, token, id, v, |v.accountsListed|))
  {
    var added := Rows(history, token, id, v, |v.accountsListed|);
    var all := history + added;
    forall i | 0 <= i < |all|
      ensures
        var f := FirstRow(all, all[i].token, all[i].accountID);
        f.Some? && all[i].firstSeenAt == f.value.observedAt
    {
      var t, a := all[i].token, all[i].accountID;
      FirstRowAppend(history, added, t, a);
      FirstRowIn(added, t, a);
      if i < |history| {
        assert all[i] == history[i];
      } else {
        assert all[i] == added[i - |history|] && all[i] in added && Matches(all[i], t, a);
      }
    }
  }

  /** The row tells of one listed account of the verdict: that it was scanned, or else that it was not reached. */
  predicate TellsOf(h: HistoryRow, r: VerdictRow) {
    && h.verdictID == r.id && h.token == r.token && h.accountID in r.verdict.accountsListed
    && h.orgID == r.verdict.orgID && h.observedAt == r.verdict.attestedAt
    && (h.status == "scanned" <==> h.accountID in r.verdict.accountsScanned)
    && (h.status == "listed_unreachable" <==> h.accountID !in r.verdict.accountsScanned)
  }

  lemma RowsTell(history: seq<HistoryRow>, r: VerdictRow, i: nat)
    requires i < |r.verdict.accountsListed|
    ensures
      var h := Rows(history, r.token, r.id, r.verdict, |r.verdict.accountsListed|)[i];
      TellsOf(h, r) && h.accountID == r.verdict.accountsListed[i]
  {
  }

  // ---- CreateVerdict as one uninterrupted transaction ----

  datatype Outcome = Created(token: string, id: nat) | DuplicateScan | Failed

  predicate HasScan(db: Db, scanID: string) {
    exists i | 0 <= i < |db.verdicts| :: db.verdicts[i].verdict.scanID == scanID
  }

  function TokenFor(db: Db, account: string, candidate: string): string {
    if account in db.links then db.links[account] else candidate
  }

  class Store {
    var db: Db

    constructor ()
      ensures db == Db(map[], [], [], 1)
    {
      db := Db(map[], [], [], 1);
    }

    /** insertAccountHistory: one lookup and one insert for each listed account; inserting the same
        account twice violates UNIQUE (verdict_id, account_id). */
    method InsertAccountHistory(token: string, id: nat, v: NewVerdict) returns (inserted: Option<seq<HistoryRow>>)
      requires FirstSeenConstant(db.history)
      ensures inserted.Some? <==> NoDuplicates(v.accountsListed)
      ensures inserted.Some? ==> inserted.value == Rows(db.history, token, id, v, |v.accountsListed|)
      ensures inserted.Some? ==> forall i | 0 <= i < |inserted.value| ::
        TellsOf(inserted.value[i], VerdictRow(id, token, v)) && inserted.value[i].accountID == v.accountsListed[i]
    {
      var pending: seq<HistoryRow> := [];
      for k := 0 to |v.accountsListed|
        invariant NoDuplicates(v.accountsListed[..k])
        invariant pending == Rows(db.history, token, id, v, k)
      {
        var account := v.accountsListed[k];
        if exists i | 0 <= i < |pending| :: pending[i].accountID == account {
          ghost var i :| 0 <= i < |pending| && pending[i].accountID == account;
          assert v.accountsListed[i] == v.accountsListed[k];
          return None;
        }
        forall i | 0 <= i < k ensures v.accountsListed[i] != account {
          assert pending[i].accountID == v.accountsListed[i];
        }
        NextRowIsRow(db.history, token, id, v, k);
        pending := pending + [NextRow(db.history + pending, token, id, v, k)];
      }
      assert v.accountsListed[..|v.accountsListed|] == v.accountsListed;
      forall i | 0 <= i < |pending| ensures TellsOf(pending[i], VerdictRow(id, token, v)) {
        RowsTell(db.history, VerdictRow(id, token, v), i);
      }
      inserted := Some(pending);
    }

    /** CreateVerdict, when every statement reaches the database. */
    method CreateVerdict(v: NewVerdict, candidate: string) returns (r: Outcome)
      requires FirstSeenConstant(db.history)
      modifies this
      ensures r.DuplicateScan? <==> HasScan(old(db), v.scanID)
      ensures r.Created? <==> !HasScan(old(db), v.scanID) && NoDuplicates(v.accountsListed)
      ensures !r.Created? ==> db == old(db).(nextID := db.nextID)
      ensures r.Created? ==>
        && r.token == TokenFor(old(db), v.accountID, candidate) && r.id == old(db).nextID
        && db.links == old(db).links[v.accountID := r.token]
        && db.verdicts == old(db).verdicts + [VerdictRow(r.id, r.token, v)]
        && db.history == old(db).history + Rows(old(db).history, r.token, r.id, v, |v.accountsListed|)
      ensures r.Created? ==> forall i | |old(db).history| <= i < |db.history| :: TellsOf(db.history[i], VerdictRow(r.id, r.token, v))
      ensures db.nextID >= old(db).nextID && (r.Created? ==> db.nextID == r.id + 1)
      ensures FirstSeenConstant(db.history)
    {
      var token := TokenFor(db, v.accountID, candidate);
      if HasScan(db, v.scanID) {
        db := db.(nextID := db.nextID + 1);
        return DuplicateScan;
      }
      var id := db.nextID;
      var rows := InsertAccountHistory(token, id, v);
      if rows.None? {
        db := db.(nextID := id + 1);
        return Failed;
      }
      AppendedRowsConsistent(db.history, token, id, v);
      db := Db(db.links[v.accountID := token], db.verdicts + [VerdictRow(id, token, v)], db.history + rows.value, id + 1);
      r := Created(token, id);
    }
  }

  // ---- interleaved transactions ----

  /** linked: the share_links row is taken; inserted: the verdict row is written but not committed,
      and next is the listed account whose history row comes next. An aborted transaction
      remembers the ID it had drawn. */
  datatype Phase =
    | Begun
    | Linked(token: string)
    | Inserted(token: string, id: nat, next: nat)
    | Committed(token: string, id: nat)
    | Aborted(drawn: Option<nat>)

  datatype Tx = Tx(verdict: NewVerdict, candidate: string, phase: Phase, pending: seq<HistoryRow>)

  datatype State = State(db: Db, txs: seq<Tx>)

  const INIT := State(Db(map[], [], [], 1), [])

  predicate HoldsLink(t: Tx) { t.phase.Linked? || t.phase.Inserted? }

  function Abort(s: State, j: nat, drawn: Option<nat>): State
    requires j < |s.txs|
  {
    s.(txs := s.txs[j := s.txs[j].(phase := Aborted(drawn), pending := [])])
  }

  /** One statement of transaction j; None when it waits for another transaction or has ended.
      When fail is set the statement errors and the transaction rolls back. */
  function TxStep(s: State, j: nat, fail: bool): Option<State>
    requires j < |s.txs|
  {
    var t := s.txs[j];
    var v := t.verdict;
    match t.phase
    case Begun =>
      if fail then Some(Abort(s, j, None))
      else if exists i | 0 <= i < |s.txs| :: i != j && HoldsLink(s.txs[i]) && s.txs[i].verdict.accountID == v.accountID then None
      else Some(s.(txs := s.txs[j := t.(phase := Linked(TokenFor(s.db, v.accountID, t.candidate)))]))
    case Linked(token) =>
      if fail then Some(Abort(s, j, None))
      else if exists i | 0 <= i < |s.txs| :: i != j && s.txs[i].phase.Inserted? && s.txs[i].verdict.scanID == v.scanID then None
      else
        var id := s.db.nextID;
        var drawn := s.(db := s.db.(nextID := id + 1));
        if HasScan(s.db, v.scanID) then Some(Abort(drawn, j, Some(id)))
        else Some(drawn.(txs := s.txs[j := t.(phase := Inserted(token, id, 0), pending := [])]))
    case Inserted(token, id, next) =>
      if fail then Some(Abort(s, j, Some(id)))
      else if next < |v.accountsListed| then
        if exists i | 0 <= i < |t.pending| :: t.pending[i].accountID == v.accountsListed[next] then Some(Abort(s, j, Some(id)))
        else
          Some(s.(txs := s.txs[j := t.(
            phase := Inserted(token, id, next + 1),
            pending := t.pending + [NextRow(s.db.history + t.pending, token, id, v, next)])]))
      else
        Some(State(
          Db(s.db.links[v.accountID := token], s.db.verdicts + [VerdictRow(id, token, v)],
             s.db.history + t.pending, s.db.nextID),
          s.txs[j := t.(phase := Committed(token, id))]))
    case _ => None
  }

  /** Random tokens are assumed never to repeat. */
  predicate FreshCandidate(s: State, candidate: string) {
    && (forall a | a in s.db.links :: s.db.links[a] != candidate)
    && (forall i | 0 <= i < |s.txs| :: s.txs[i].candidate != candidate)
  }

  ghost predicate Step(s: State, s': State) {
    || (exists v, candidate: string | FreshCandidate(s, candidate) ::
          s' == s.(txs := s.txs + [Tx(v, candidate, Begun, [])]))
    || (exists j: nat, fail: bool | j < |s.txs| :: TxStep(s, j, fail) == Some(s'))
  }

  // ---- the inductive invariant ----

  function TokenOf(t: Tx): string
    requires HoldsLink(t)
  {
    t.phase.token
  }

  /** Tokens belong to one account: committed ones, and those of transactions under way. */
  ghost predicate Tokens(s: State) {
    && (forall a, b | a in s.db.links && b in s.db.links && a != b :: s.db.links[a] != s.db.links[b])
    && (forall i, j | 0 <= i < j < |s.txs| :: s.txs[i].candidate != s.txs[j].candidate)
    && (forall i, a | 0 <= i < |s.txs| && a in s.db.links && s.db.links[a] == s.txs[i].candidate :: s.txs[i].phase.Committed?)
    && (forall i | 0 <= i < |s.txs| && HoldsLink(s.txs[i]) ::
          TokenOf(s.txs[i]) == TokenFor(s.db, s.txs[i].verdict.accountID, s.txs[i].candidate))
    && (forall i, j | 0 <= i < j < |s.txs| && HoldsLink(s.txs[i]) && HoldsLink(s.txs[j]) ::
          s.txs[i].verdict.accountID != s.txs[j].verdict.accountID)
  }

  /** The uncommitted history rows are the specified ones for the committed table as it is now. */
  ghost predicate Pending(s: State) {
    && FirstSeenConstant(s.db.history)
    && forall i | 0 <= i < |s.txs| && s.txs[i].phase.Inserted? ::
         var t := s.txs[i];
         && t.phase.next <= |t.verdict.accountsListed|
         && NoDuplicates(t.verdict.accountsListed[..t.phase.next])
         && t.pending == Rows(s.db.history, t.phase.token, t.phase.id, t.verdict, t.phase.next)
  }

  ghost predicate Scans(s: State) {
    && (forall a, b | 0 <= a < b < |s.db.verdicts| :: s.db.verdicts[a].verdict.scanID != s.db.verdicts[b].verdict.scanID)
    && (forall i, j | 0 <= i < j < |s.txs| && s.txs[i].phase.Inserted? && s.txs[j].phase.Inserted? ::
          s.txs[i].verdict.scanID != s.txs[j].verdict.scanID)
    && (forall i | 0 <= i < |s.txs| && s.txs[i].phase.Inserted? :: !HasScan(s.db, s.txs[i].verdict.scanID))
  }

  /** The ID a transaction has drawn. */
  function Drawn(t: Tx): Option<nat> {
    match t.phase
    case Inserted(_, id, _) => Some(id)
    case Committed(_, id) => Some(id)
    case Aborted(d) => d
    case _ => None
  }

  ghost predicate IDs(s: State) {
    && (forall i | 0 <= i < |s.txs| && Drawn(s.txs[i]).Some? :: Drawn(s.txs[i]).value < s.db.nextID)
    && (forall i, j | 0 <= i < j < |s.txs| && Drawn(s.txs[i]).Some? :: Drawn(s.txs[i]) != Drawn(s.txs[j]))
  }

  /** Every stored row was written by a transaction that committed. */
  ghost predicate Provenance(s: State) {
    && (forall r | r in s.db.verdicts ::
          exists i | 0 <= i < |s.txs| :: s.txs[i].phase == Committed(r.token, r.id) && s.txs[i].verdict == r.verdict)
    && (forall h | h in s.db.history ::
          exists i | 0 <= i < |s.txs| :: s.txs[i].phase == Committed(h.token, h.verdictID))
    && (forall r | r in s.db.verdicts :: r.verdict.accountID in s.db.links && s.db.links[r.verdict.accountID] == r.token)
  }

  ghost predicate Inv(s: State) { Tokens(s) && Pending(s) && Scans(s) && IDs(s) && Provenance(s) }

  // Beginning a transaction.

  lemma TokensBegin(s: State, t: Tx)
    requires Tokens(s) && FreshCandidate(s, t.candidate) && t.phase.Begun?
    ensures Tokens(s.(txs := s.txs + [t]))
  {
  }

  lemma ProvenanceBegin(s: State, t: Tx)
    requires Provenance(s)
    ensures Provenance(s.(txs := s.txs + [t]))
  {
    var s' := s.(txs := s.txs + [t]);
    assert forall i | 0 <= i < |s.txs| :: s'.txs[i] == s.txs[i];
    forall r | r in s.db.verdicts
      ensures exists i | 0 <= i < |s'.txs| :: s'.txs[i].phase == Committed(r.token, r.id) && s'.txs[i].verdict == r.verdict
    {
      var i :| 0 <= i < |s.txs| && s.txs[i].phase == Committed(r.token, r.id) && s.txs[i].verdict == r.verdict;
      assert s'.txs[i] == s.txs[i];
    }
    forall h | h in s.db.history
      ensures exists i | 0 <= i < |s'.txs| :: s'.txs[i].phase == Committed(h.token, h.verdictID)
    {
      var i :| 0 <= i < |s.txs| && s.txs[i].phase == Committed(h.token, h.verdictID);
      assert s'.txs[i] == s.txs[i];
    }
  }

  lemma OthersBegin(s: State, t: Tx)
    requires Pending(s) && Scans(s) && IDs(s) && t.phase.Begun?
    ensures
      var s' := s.(txs := s.txs + [t]);
      Pending(s') && Scans(s') && IDs(s')
  {
    var s' := s.(txs := s.txs + [t]);
    assert forall i | 0 <= i < |s.txs| :: s'.txs[i] == s.txs[i];
  }

  // A statement that does not commit.

  ghost predicate NotCommit(s: State, j: nat, s': State)
    requires j < |s.txs|
  {
    && s'.db.links == s.db.links && s'.db.verdicts == s.db.verdicts && s'.db.history == s.db.history
    && |s'.txs| == |s.txs| && s'.txs == s.txs[j := s'.txs[j]]
    && !s.txs[j].phase.Committed? && !s'.txs[j].phase.Committed?
    && s'.txs[j].verdict == s.txs[j].verdict && s'.txs[j].candidate == s.txs[j].candidate
  }

  lemma Classify(s: State, j: nat, fail: bool, s': State)
    requires j < |s.txs| && TxStep(s, j, fail) == Some(s')
    ensures NotCommit(s, j, s') || s'.txs[j].phase.Committed?
  {
  }

  lemma TokensStep(s: State, j: nat, fail: bool, s': State)
    requires Tokens(s) && j < |s.txs| && TxStep(s, j, fail) == Some(s') && NotCommit(s, j, s')
    ensures Tokens(s')
  {
  }

  lemma PendingStep(s: State, j: nat, fail: bool, s': State)
    requires Pending(s) && j < |s.txs| && TxStep(s, j, fail) == Some(s') && NotCommit(s, j, s')
    ensures Pending(s')
  {
    var t := s.txs[j];
    if t.phase.Inserted? && s'.txs[j].phase.Inserted? {
      var Inserted(token, id, k) := t.phase;
      var listed := t.verdict.accountsListed;
      forall i | 0 <= i < k ensures listed[i] != listed[k] {
        assert t.pending[i].accountID == listed[i];
      }
      NextRowIsRow(s.db.history, token, id, t.verdict, k);
    }
  }

  lemma ScansStep(s: State, j: nat, fail: bool, s': State)
    requires Scans(s) && j < |s.txs| && TxStep(s, j, fail) == Some(s') && NotCommit(s, j, s')
    ensures Scans(s')
  {
  }

  lemma IDsStep(s: State, j: nat, fail: bool, s': State)
    requires IDs(s) && j < |s.txs| && TxStep(s, j, fail) == Some(s')
    ensures IDs(s')
  {
  }

  lemma ProvenanceStep(s: State, j: nat, s': State)
    requires Provenance(s) && j < |s.txs| && NotCommit(s, j, s')
    ensures Provenance(s')
  {
    forall r | r in s.db.verdicts
      ensures exists i | 0 <= i < |s'.txs| :: s'.txs[i].phase == Committed(r.token, r.id) && s'.txs[i].verdict == r.verdict
    {
      var i :| 0 <= i < |s.txs| && s.txs[i].phase == Committed(r.token, r.id) && s.txs[i].verdict == r.verdict;
      assert s'.txs[i] == s.txs[i];
    }
    forall h | h in s.db.history
      ensures exists i | 0 <= i < |s'.txs| :: s'.txs[i].phase == Committed(h.token, h.verdictID)
    {
      var i :| 0 <= i < |s.txs| && s.txs[i].phase == Committed(h.token, h.verdictID);
      assert s'.txs[i] == s.txs[i];
    }
  }

  // The commit.

  ghost predicate Commits(s: State, j: nat, s': State)
    requires j < |s.txs|
  {
    var t := s.txs[j];
    && t.phase.Inserted? && t.phase.next == |t.verdict.accountsListed|
    && s' == State(
         Db(s.db.links[t.verdict.accountID := t.phase.token],
            s.db.verdicts + [VerdictRow(t.phase.id, t.phase.token, t.verdict)],
            s.db.history + t.pending, s.db.nextID),
         s.txs[j := t.(phase := Committed(t.phase.token, t.phase.id))])
  }

  lemma TokensCommit(s: State, j: nat, s': State)
    requires Tokens(s) && j < |s.txs| && Commits(s, j, s')
    ensures Tokens(s')
  {
    var t := s.txs[j];
    var a, token := t.verdict.accountID, t.phase.token;
    assert token == TokenFor(s.db, a, t.candidate);
    forall i, b | 0 <= i < |s'.txs| && b in s'.db.links && s'.db.links[b] == s'.txs[i].candidate
      ensures s'.txs[i].phase.Committed?
    {
      if b == a && a !in s.db.links && i != j {
        assert s.txs[i].candidate != s.txs[j].candidate;
      }
    }
    forall b, c | b in s'.db.links && c in s'.db.links && b != c ensures s'.db.links[b] != s'.db.links[c] {
      if a !in s.db.links {
        assert forall d | d in s.db.links :: s.db.links[d] != t.candidate;
      }
    }
  }

  /** Rows of one token do not change what another token's rows should be. */
  lemma RowsFrame(history: seq<HistoryRow>, more: seq<HistoryRow>, token: string, id: nat, v: NewVerdict, k: nat)
    requires k <= |v.accountsListed| && forall r | r in more :: r.token != token
    ensures Rows(history + more, token, id, v, k) == Rows(history, token, id, v, k)
  {
    forall i | 0 <= i < k
      ensures Row(history + more, token, id, v, v.accountsListed[i]) == Row(history, token, id, v, v.accountsListed[i])
    {
      var account := v.accountsListed[i];
      FirstRowAppend(history, more, token, account);
      FirstRowIn(more, token, account);
    }
  }

  lemma OtherTokensDiffer(s: State, i: nat, j: nat)
    requires Tokens(s) && i < |s.txs| && j < |s.txs| && i != j && HoldsLink(s.txs[i]) && HoldsLink(s.txs[j])
    ensures TokenOf(s.txs[i]) != TokenOf(s.txs[j])
  {
    var a, b := s.txs[i].verdict.accountID, s.txs[j].verdict.accountID;
    assert a != b && s.txs[i].candidate != s.txs[j].candidate;
    assert a in s.db.links ==> s.db.links[a] != s.txs[j].candidate;
    assert b in s.db.links ==> s.db.links[b] != s.txs[i].candidate;
  }

  lemma PendingCommit(s: State, j: nat, s': State)
    requires Tokens(s) && Pending(s) && j < |s.txs| && Commits(s, j, s')
    ensures Pending(s')
  {
    var t := s.txs[j];
    var n := |t.verdict.accountsListed|;
    assert t.verdict.accountsListed[..n] == t.verdict.accountsListed;
    AppendedRowsConsistent(s.db.history, t.phase.token, t.phase.id, t.verdict);
    forall i | 0 <= i < |s'.txs| && s'.txs[i].phase.Inserted?
      ensures s'.txs[i].pending == Rows(s'.db.history, s'.txs[i].phase.token, s'.txs[i].phase.id, s'.txs[i].verdict, s'.txs[i].phase.next)
    {
      assert s'.txs[i] == s.txs[i];
      OtherTokensDiffer(s, i, j);
      RowsFrame(s.db.history, t.pending, s.txs[i].phase.token, s.txs[i].phase.id, s.txs[i].verdict, s.txs[i].phase.next);
    }
  }

  lemma ScansCommit(s: State, j: nat, s': State)
    requires Scans(s) && j < |s.txs| && Commits(s, j, s')
    ensures Scans(s')
  {
    var t := s.txs[j];
    assert forall a | 0 <= a < |s.db.verdicts| :: s'.db.verdicts[a] == s.db.verdicts[a];
    assert forall a | 0 <= a < |s.db.verdicts| :: s.db.verdicts[a].verdict.scanID != t.verdict.scanID;
    forall i | 0 <= i < |s'.txs| && s'.txs[i].phase.Inserted? ensures !HasScan(s'.db, s'.txs[i].verdict.scanID) {
      assert s'.txs[i] == s.txs[i] && s.txs[i].verdict.scanID != t.verdict.scanID;
    }
  }

  lemma ProvenanceCommit(s: State, j: nat, s': State)
    requires Tokens(s) && Pending(s) && Provenance(s) && j < |s.txs| && Commits(s, j, s')
    ensures Provenance(s')
  {
    var t := s.txs[j];
    var row := VerdictRow(t.phase.id, t.phase.token, t.verdict);
    assert s'.txs[j].phase == Committed(row.token, row.id);
    assert TokenOf(t) == TokenFor(s.db, t.verdict.accountID, t.candidate);
    forall r | r in s'.db.verdicts
      ensures exists i | 0 <= i < |s'.txs| :: s'.txs[i].phase == Committed(r.token, r.id) && s'.txs[i].verdict == r.verdict
    {
      if r in s.db.verdicts {
        var i :| 0 <= i < |s.txs| && s.txs[i].phase == Committed(r.token, r.id) && s.txs[i].verdict == r.verdict;
        assert s'.txs[i] == s.txs[i];
      } else {
        assert r == row;
      }
    }
    forall h | h in s'.db.history
      ensures exists i | 0 <= i < |s'.txs| :: s'.txs[i].phase == Committed(h.token, h.verdictID)
    {
      if h in s.db.history {
        var i :| 0 <= i < |s.txs| && s.txs[i].phase == Committed(h.token, h.verdictID);
        assert s'.txs[i] == s.txs[i];
      } else {
        assert h in t.pending;
      }
    }
  }

  lemma InvNotCommit(s: State, j: nat, fail: bool, s': State)
    requires Inv(s) && j < |s.txs| && TxStep(s, j, fail) == Some(s') && NotCommit(s, j, s')
    ensures Inv(s')
  {
    TokensStep(s, j, fail, s');
    PendingStep(s, j, fail, s');
    ScansStep(s, j, fail, s');
    IDsStep(s, j, fail, s');
    ProvenanceStep(s, j, s');
  }

  lemma InvCommit(s: State, j: nat, s': State)
    requires Inv(s) && j < |s.txs| && Commits(s, j, s') && TxStep(s, j, false) == Some(s')
    ensures Inv(s')
  {
    TokensCommit(s, j, s');
    PendingCommit(s, j, s');
    ScansCommit(s, j, s');
    IDsStep(s, j, false, s');
    ProvenanceCommit(s, j, s');
  }

  lemma InvStep(s: State, s': State)
    requires Inv(s) && Step(s, s')
    ensures Inv(s')
  {
    if v, candidate: string :| FreshCandidate(s, candidate) && s' == s.(txs := s.txs + [Tx(v, candidate, Begun, [])]) {
      TokensBegin(s, Tx(v, candidate, Begun, []));
      OthersBegin(s, Tx(v, candidate, Begun, []));
      ProvenanceBegin(s, Tx(v, candidate, Begun, []));
    } else {
      var j: nat, fail: bool :| j < |s.txs| && TxStep(s, j, fail) == Some(s');
      Classify(s, j, fail, s');
      if NotCommit(s, j, s') {
        InvNotCommit(s, j, fail, s');
      } else {
        CommitShape(s, j, fail, s');
        InvCommit(s, j, s');
      }
    }
  }

  lemma CommitShape(s: State, j: nat, fail: bool, s': State)
    requires Pending(s) && j < |s.txs| && TxStep(s, j, fail) == Some(s') && s'.txs[j].phase.Committed?
    ensures !fail && Commits(s, j, s')
  {
  }

  // ---- every run ----

  ghost predicate StepAt(run: seq<State>, k: nat)
    requires k + 1 < |run|
  {
    Step(run[k], run[k + 1])
  }

  ghost predicate Run(run: seq<State>) {
    run != [] && run[0] == INIT && forall k: nat | k + 1 < |run| :: StepAt(run, k)
  }

  /** Nothing stored is ever changed or removed. */
  ghost predicate Grows(a: Db, b: Db) {
    && (forall k | k in a.links :: k in b.links && b.links[k] == a.links[k])
    && a.verdicts <= b.verdicts && a.history <= b.history
  }

  lemma GrowsStep(s: State, s': State)
    requires Tokens(s) && Step(s, s')
    ensures Grows(s.db, s'.db)
  {
    if j: nat, fail: bool :| j < |s.txs| && TxStep(s, j, fail) == Some(s') {
      Classify(s, j, fail, s');
      if HoldsLink(s.txs[j]) {
        assert TokenOf(s.txs[j]) == TokenFor(s.db, s.txs[j].verdict.accountID, s.txs[j].candidate);
      }
    }
  }

  lemma {:induction false} RunInvariant(run: seq<State>, k: nat)
    requires Run(run) && k < |run|
    ensures Inv(run[k])
    decreases k
  {
    if k > 0 {
      RunInvariant(run, k - 1);
      assert StepAt(run, k - 1);
      InvStep(run[k - 1], run[k]);
    }
  }

  lemma RunStepGrows(run: seq<State>, k: nat)
    requires Run(run) && k + 1 < |run|
    ensures Grows(run[k].db, run[k + 1].db)
  {
    RunInvariant(run, k);
    assert StepAt(run, k);
    GrowsStep(run[k], run[k + 1]);
  }

  lemma GrowsTransitive(a: Db, b: Db, c: Db)
    requires Grows(a, b) && Grows(b, c)
    ensures Grows(a, c)
  {
  }

  lemma {:induction false} RunGrows(run: seq<State>, k: nat, l: nat)
    requires Run(run) && k <= l < |run|
    ensures Grows(run[k].db, run[l].db)
    decreases l
  {
    if k < l {
      RunGrows(run, k, l - 1);
      RunStepGrows(run, l - 1);
      GrowsTransitive(run[k].db, run[l - 1].db, run[l].db);
    }
  }

  // ---- what the history rows say ----

  ghost predicate ToldOf(db: Db, h: HistoryRow) { exists r :: r in db.verdicts && TellsOf(h, r) }

  /** One row about the account under that verdict. */
  ghost predicate Listed(db: Db, id: nat, account: string) {
    exists h :: h in db.history && h.verdictID == id && h.accountID == account
  }

  predicate SameSubject(g: HistoryRow, h: HistoryRow) { g.verdictID == h.verdictID && g.accountID == h.accountID }

  /** Each history row tells of a verdict, each listed account of each verdict has one, and no two rows
      are about the same verdict and account, nor two verdicts of one ID. */
  ghost predicate HistoryTells(db: Db) {
    && (forall h | h in db.history :: ToldOf(db, h))
    && (forall r, a | r in db.verdicts && a in r.verdict.accountsListed :: Listed(db, r.id, a))
    && (forall i, j | 0 <= i < j < |db.history| :: !SameSubject(db.history[i], db.history[j]))
    && (forall i, j | 0 <= i < j < |db.verdicts| :: db.verdicts[i].id != db.verdicts[j].id)
  }

  /** No stored row has the ID of a transaction under way. */
  lemma UnusedID(s: State, j: nat)
    requires IDs(s) && Provenance(s) && j < |s.txs| && s.txs[j].phase.Inserted?
    ensures forall r | r in s.db.verdicts :: r.id != s.txs[j].phase.id
    ensures forall h | h in s.db.history :: h.verdictID != s.txs[j].phase.id
  {
    forall r | r in s.db.verdicts ensures r.id != s.txs[j].phase.id {
      var i :| 0 <= i < |s.txs| && s.txs[i].phase == Committed(r.token, r.id) && s.txs[i].verdict == r.verdict;
      DrawnApart(s, i, j);
    }
    forall h | h in s.db.history ensures h.verdictID != s.txs[j].phase.id {
      var i :| 0 <= i < |s.txs| && s.txs[i].phase == Committed(h.token, h.verdictID);
      DrawnApart(s, i, j);
    }
  }

  lemma DrawnApart(s: State, i: nat, j: nat)
    requires IDs(s) && i < |s.txs| && j < |s.txs| && s.txs[i].phase.Committed? && s.txs[j].phase.Inserted?
    ensures s.txs[i].phase.id != s.txs[j].phase.id
  {
    assert Drawn(s.txs[i]) == Some(s.txs[i].phase.id) && Drawn(s.txs[j]) == Some(s.txs[j].phase.id);
    assert if i < j then Drawn(s.txs[i]) != Drawn(s.txs[j]) else Drawn(s.txs[j]) != Drawn(s.txs[i]);
  }

  /** A ledger grown by one verdict with a new ID and its rows. */
  lemma TellsOfMore(db: Db, r: VerdictRow, more: Db)
    requires HistoryTells(db) && NoDuplicates(r.verdict.accountsListed)
    requires forall q | q in db.verdicts :: q.id != r.id
    requires forall h | h in db.history :: h.verdictID != r.id
    requires more.verdicts == db.verdicts + [r]
    requires more.history == db.history + Rows(db.history, r.token, r.id, r.verdict, |r.verdict.accountsListed|)
    ensures HistoryTells(more)
  {
    var added := Rows(db.history, r.token, r.id, r.verdict, |r.verdict.accountsListed|);
    assert r in more.verdicts;
    forall i | 0 <= i < |added| ensures TellsOf(added[i], r) && added[i].accountID == r.verdict.accountsListed[i] {
      RowsTell(db.history, r, i);
    }
    forall h | h in more.history ensures ToldOf(more, h) {
      if h in db.history {
        assert ToldOf(db, h);
        var q :| q in db.verdicts && TellsOf(h, q);
        assert q in more.verdicts;
      } else {
        assert TellsOf(h, r);
      }
    }
    forall q, a | q in more.verdicts && a in q.verdict.accountsListed ensures Listed(more, q.id, a) {
      if q in db.verdicts {
        assert Listed(db, q.id, a);
        var h :| h in db.history && h.verdictID == q.id && h.accountID == a;
        assert h in more.history;
      } else {
        var i :| 0 <= i < |r.verdict.accountsListed| && r.verdict.accountsListed[i] == a;
        assert added[i] in more.history;
      }
    }
    forall i, j | 0 <= i < j < |more.history| ensures !SameSubject(more.history[i], more.history[j]) {
      assert i < |db.history| ==> more.history[i] in db.history;
      assert j >= |db.history| ==> more.history[j] == added[j - |db.history|];
      assert i >= |db.history| ==> more.history[i] == added[i - |db.history|];
    }
    forall i, j | 0 <= i < j < |more.verdicts| ensures more.verdicts[i].id != more.verdicts[j].id {
      assert more.verdicts[i] in db.verdicts;
    }
  }

  lemma TellsStep(s: State, s': State)
    requires Inv(s) && Step(s, s') && HistoryTells(s.db)
    ensures HistoryTells(s'.db)
  {
    if j: nat, fail: bool :| j < |s.txs| && TxStep(s, j, fail) == Some(s') {
      Classify(s, j, fail, s');
      if !NotCommit(s, j, s') {
        CommitShape(s, j, fail, s');
        TellsCommit(s, j, s');
      }
    }
  }

  lemma TellsCommit(s: State, j: nat, s': State)
    requires Inv(s) && j < |s.txs| && Commits(s, j, s') && HistoryTells(s.db)
    ensures HistoryTells(s'.db)
  {
    var t := s.txs[j];
    UnusedID(s, j);
    assert t.verdict.accountsListed[..|t.verdict.accountsListed|] == t.verdict.accountsListed;
    TellsOfMore(s.db, VerdictRow(t.phase.id, t.phase.token, t.verdict), s'.db);
  }

  /** HISTORY TELLS THE VERDICTS: over every run each history row is about one listed account of one stored
      verdict, with its organization and time, and says truly whether it was scanned; and each listed
      account of each stored verdict has exactly one. */
  lemma {:induction false} RunHistoryTells(run: seq<State>, k: nat)
    requires Run(run) && k < |run|
    ensures HistoryTells(run[k].db)
    decreases k
  {
    if k > 0 {
      RunHistoryTells(run, k - 1);
      RunInvariant(run, k - 1);
      assert StepAt(run, k - 1);
      TellsStep(run[k - 1], run[k]);
    }
  }

  /** SERIALISABLE: whatever the interleaving, a commit changes the ledger exactly as
      Store.CreateVerdict would on the ledger as it is at that moment. */
  lemma CommitIsSerial(run: seq<State>, k: nat, j: nat, s': State)
    requires Run(run) && k < |run| && j < |run[k].txs|
    requires TxStep(run[k], j, false) == Some(s') && s'.txs[j].phase.Committed?
    ensures
      var db, t := run[k].db, run[k].txs[j];
      var v, token, id := t.verdict, s'.txs[j].phase.token, s'.txs[j].phase.id;
      && !HasScan(db, v.scanID) && NoDuplicates(v.accountsListed)
      && token == TokenFor(db, v.accountID, t.candidate) && id < db.nextID
      && s'.db == Db(db.links[v.accountID := token], db.verdicts + [VerdictRow(id, token, v)],
                     db.history + Rows(db.history, token, id, v, |v.accountsListed|), db.nextID)
  {
    RunInvariant(run, k);
    var s := run[k];
    var t := s.txs[j];
    CommitShape(s, j, false, s');
    assert t.verdict.accountsListed[..|t.verdict.accountsListed|] == t.verdict.accountsListed;
    assert TokenOf(t) == TokenFor(s.db, t.verdict.accountID, t.candidate);
    assert Drawn(t) == Some(t.phase.id);
  }

  /** EVERY RUN of interleaved transactions: an account keeps its first token for ever and shares
      it with no other account; scan IDs are unique; the ledger only grows; an aborted transaction
      has left neither link nor row; and all history rows of one token and account carry as first_seen_at the
      observed_at of the first such row inserted, in whatever order the attested times arrive. */
  lemma LedgerSafety(run: seq<State>, k: nat, l: nat)
    requires Run(run) && k <= l < |run|
    ensures Grows(run[k].db, run[l].db)
    ensures forall a, b | a in run[l].db.links && b in run[l].db.links && a != b :: run[l].db.links[a] != run[l].db.links[b]
    ensures forall r | r in run[l].db.verdicts ::
      r.verdict.accountID in run[l].db.links && run[l].db.links[r.verdict.accountID] == r.token
    ensures forall i, j | 0 <= i < j < |run[l].db.verdicts| ::
      run[l].db.verdicts[i].verdict.scanID != run[l].db.verdicts[j].verdict.scanID
    ensures forall i | 0 <= i < |run[l].txs| && run[l].txs[i].phase.Aborted? :: NoTraceOf(run[l].db, run[l].txs[i])
    ensures FirstSeenConstant(run[l].db.history)
  {
    RunGrows(run, k, l);
    RunInvariant(run, l);
    var s := run[l];
    forall i | 0 <= i < |s.txs| && s.txs[i].phase.Aborted? ensures NoTraceOf(s.db, s.txs[i]) { NoTrace(s, i); }
  }

  /** No account has the token the transaction would have given, and no row the ID it had drawn. */
  ghost predicate NoTraceOf(db: Db, t: Tx) {
    && (forall a | a in db.links :: db.links[a] != t.candidate)
    && (Drawn(t).Some? ==> forall r | r in db.verdicts :: r.id != Drawn(t).value)
    && (Drawn(t).Some? ==> forall h | h in db.history :: h.verdictID != Drawn(t).value)
  }

  lemma NoTrace(s: State, i: nat)
    requires Inv(s) && i < |s.txs| && s.txs[i].phase.Aborted?
    ensures NoTraceOf(s.db, s.txs[i])
  {
    var t := s.txs[i];
    forall r | r in s.db.verdicts && Drawn(t).Some? ensures r.id != Drawn(t).value {
      var j :| 0 <= j < |s.txs| && s.txs[j].phase == Committed(r.token, r.id) && s.txs[j].verdict == r.verdict;
      OtherID(s, i, j);
    }
    forall h | h in s.db.history && Drawn(t).Some? ensures h.verdictID != Drawn(t).value {
      var j :| 0 <= j < |s.txs| && s.txs[j].phase == Committed(h.token, h.verdictID);
      OtherID(s, i, j);
    }
  }

  lemma OtherID(s: State, i: nat, j: nat)
    requires IDs(s) && i < |s.txs| && j < |s.txs| && s.txs[i].phase.Aborted? && s.txs[j].phase.Committed?
    requires Drawn(s.txs[i]).Some?
    ensures Drawn(s.txs[i]).value != s.txs[j].phase.id
  {
    assert Drawn(s.txs[j]) == Some(s.txs[j].phase.id);
    assert i < j ==> Drawn(s.txs[i]) != Drawn(s.txs[j]);
    assert j < i ==> Drawn(s.txs[j]) != Drawn(s.txs[i]);
  }

  // ---- progress ----

  predicate Unfinished(t: Tx) { !t.phase.Committed? && !t.phase.Aborted? }

  /** NO DEADLOCK: while some transaction is unfinished, some transaction can execute its next
      statement without an error. */
  lemma NoDeadlock(s: State, j: nat) returns (i: nat)
    requires j < |s.txs| && Unfinished(s.txs[j])
    ensures i < |s.txs| && Unfinished(s.txs[i]) && TxStep(s, i, false).Some?
  {
    if k :| 0 <= k < |s.txs| && s.txs[k].phase.Inserted? {
      i := k;
    } else if k :| 0 <= k < |s.txs| && s.txs[k].phase.Linked? {
      i := k;
    } else {
      i := j;
    }
  }

  /** Statements a transaction has still to execute. */
  function Remaining(t: Tx): nat {
    var n := |t.verdict.accountsListed|;
    match t.phase
    case Begun => n + 3
    case Linked(_) => n + 2
    case Inserted(_, _, next) => if next <= n then n - next + 1 else 0
    case Committed(_, _) => 0
    case Aborted(_) => 0
  }

  /** TERMINATION: each statement leaves its transaction fewer to go and the others as they are. */
  lemma StepRemaining(s: State, j: nat, fail: bool, s': State)
    requires Inv(s) && j < |s.txs| && TxStep(s, j, fail) == Some(s')
    ensures |s'.txs| == |s.txs| && Remaining(s'.txs[j]) < Remaining(s.txs[j])
    ensures forall i | 0 <= i < |s.txs| && i != j :: s'.txs[i] == s.txs[i]
  {
  }

  // ---- first_seen_at against its documentation ----

  /** first_seen_at is no later than any attested time of the same account under the same token.
      As FirstSeenConstant makes it one of those times, it is then the earliest. */
  ghost predicate Earliest(rows: seq<HistoryRow>) {
    forall i, j | 0 <= i < |rows| && 0 <= j < |rows| && Matches(rows[j], rows[i].token, rows[i].accountID) ::
      rows[i].firstSeenAt <= rows[j].observedAt
  }

  /** The verdict is no older than the first scan of any account it lists. */
  ghost predicate OnTime(history: seq<HistoryRow>, token: string, v: NewVerdict) {
    forall a | a in v.accountsListed && FirstRow(history, token, a).Some? ::
      FirstRow(history, token, a).value.observedAt <= v.attestedAt
  }

  /** EXACT: inserting a verdict keeps first_seen_at the earliest attested time, as
      migrations/0005_account_history.sql has it, if and only if the verdict is on time. */
  lemma EarliestIffOnTime(history: seq<HistoryRow>, token: string, id: nat, v: NewVerdict)
    requires FirstSeenConstant(history) && Earliest(history)
    ensures Earliest(history + Rows(history, token, id, v, |v.accountsListed|)) <==> OnTime(history, token, v)
  {
    var added := Rows(history, token, id, v, |v.accountsListed|);
    var all := history + added;
    if OnTime(history, token, v) {
      forall i, j | 0 <= i < |all| && 0 <= j < |all| && Matches(all[j], all[i].token, all[i].accountID)
        ensures all[i].firstSeenAt <= all[j].observedAt
      {
        FirstRowIn(history, all[i].token, all[i].accountID);
        assert i >= |history| ==> all[i].accountID in v.accountsListed;
        if j < |history| { assert history[j] in history && Matches(history[j], history[j].token, history[j].accountID); }
      }
    }
    if Earliest(all) {
      forall a | a in v.accountsListed && FirstRow(history, token, a).Some?
        ensures FirstRow(history, token, a).value.observedAt <= v.attestedAt
      {
        var k :| 0 <= k < |v.accountsListed| && v.accountsListed[k] == a;
        var r := all[|history| + k];
        assert r == added[k] && Matches(r, r.token, r.accountID);
      }
    }
  }

  lemma EarliestPrefix(a: seq<HistoryRow>, b: seq<HistoryRow>)
    requires Earliest(a + b)
    ensures Earliest(a)
  {
    assert forall i | 0 <= i < |a| :: (a + b)[i] == a[i];
  }

  /** Whichever transaction commits in this step is on time. */
  ghost predicate CommitsOnTime(s: State, s': State) {
    forall j | 0 <= j < |s.txs| && j < |s'.txs| && !s.txs[j].phase.Committed? && s'.txs[j].phase.Committed? ::
      OnTime(s.db.history, s'.txs[j].phase.token, s.txs[j].verdict)
  }

  lemma EarliestCommit(s: State, j: nat, s': State)
    requires Inv(s) && j < |s.txs| && Commits(s, j, s')
    ensures Earliest(s'.db.history) <==> Earliest(s.db.history) && CommitsOnTime(s, s')
  {
    var t := s.txs[j];
    var n := |t.verdict.accountsListed|;
    assert t.pending == Rows(s.db.history, t.phase.token, t.phase.id, t.verdict, n);
    if Earliest(s'.db.history) { EarliestPrefix(s.db.history, t.pending); }
    if Earliest(s.db.history) { EarliestIffOnTime(s.db.history, t.phase.token, t.phase.id, t.verdict); }
    assert s'.txs[j].phase == Committed(t.phase.token, t.phase.id);
  }

  lemma EarliestStep(s: State, s': State)
    requires Inv(s) && Step(s, s')
    ensures Earliest(s'.db.history) <==> Earliest(s.db.history) && CommitsOnTime(s, s')
  {
    if j: nat, fail: bool :| j < |s.txs| && TxStep(s, j, fail) == Some(s') {
      Classify(s, j, fail, s');
      if s'.txs[j].phase.Committed? {
        CommitShape(s, j, fail, s');
        EarliestCommit(s, j, s');
      }
    }
  }

  ghost predicate OnTimeAt(run: seq<State>, k: nat)
    requires k + 1 < |run|
  {
    CommitsOnTime(run[k], run[k + 1])
  }

  lemma EarliestAt(run: seq<State>, k: nat)
    requires Run(run) && k + 1 < |run|
    ensures Earliest(run[k + 1].db.history) <==> Earliest(run[k].db.history) && OnTimeAt(run, k)
  {
    RunInvariant(run, k);
    assert StepAt(run, k);
    EarliestStep(run[k], run[k + 1]);
  }

  /** OVER RUNS: first_seen_at is the earliest attested time exactly as long as every commit so far
      was on time. */
  lemma {:induction false} EarliestIffRunOnTime(run: seq<State>, l: nat)
    requires Run(run) && l < |run|
    ensures Earliest(run[l].db.history) <==> forall k: nat | k < l :: OnTimeAt(run, k)
    decreases l
  {
    if l > 0 {
      EarliestIffRunOnTime(run, l - 1);
      EarliestAt(run, l - 1);
    }
  }

  /** An older scan that arrives second: its account history says "first seen" at the newer time. */
  method LateArrival() returns (s: Store)
    ensures exists i | 0 <= i < |s.db.history| :: s.db.history[i].firstSeenAt > s.db.history[i].observedAt
  {
    s := new Store();
    var r := s.CreateVerdict(NewVerdict("scan-2", "111", None, 200, ["111"], ["111"]), "t1");
    assert s.db.history[0].observedAt == 200 && Matches(s.db.history[0], "t1", "111");
    r := s.CreateVerdict(NewVerdict("scan-1", "111", None, 100, ["111"], ["111"]), "t2");
    assert s.db.history[1].observedAt == 100;
  }
}
