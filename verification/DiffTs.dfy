/** web/src/verify/diff.ts: the browser's own change set over two responses. */
module DiffTs {
  import opened Wrappers
  import opened Sorting
  import opened Report
  import opened HashTs
  import opened Diff
  import HashPipeline

  /** Names every JavaScript object inherits from Object.prototype. */
  const INHERITED: set<string> :=
    {"constructor", "hasOwnProperty", "isPrototypeOf", "propertyIsEnumerable", "toLocaleString", "toString",
     "valueOf", "__proto__", "__defineGetter__", "__defineSetter__", "__lookupGetter__", "__lookupSetter__"}

  /** o[key]: an own value, something inherited, or undefined. */
  datatype Slot<T> = Own(value: T) | Inherited | Undefined

  function Lookup<T>(o: map<string, T>, key: string): Slot<T> {
    if key in o then Own(o[key]) else if key in INHERITED then Inherited else Undefined
  }

  function JsAccountMap(c: JsCheck): map<string, JsResult> { c.accounts.GetOr(map[]) }

  function JsAccountResults(accountID: string, check: JsCheck): map<string, JsResult> {
    if JsAccountMap(check) != map[] then JsAccountMap(check) else map[accountID := check.result]
  }

  /** What the browser reads off an old result: an inherited one has no status and no findings. */
  datatype Earlier = Earlier(status: Option<string>, findings: seq<string>)

  function JsFindings(r: JsResult): seq<string> { r.findings.GetOr([]) }

  function EarlierOf(slot: Slot<JsResult>): Option<Earlier> {
    match slot
    case Own(r) => Some(Earlier(Some(r.status), JsFindings(r)))
    case Inherited => Some(Earlier(None, []))
    case Undefined => None
  }

  /** oldAccounts[accountId], given previous.checks[checkId]. An inherited check has neither accounts
      nor result, so its only own account is undefined. */
  function OldResult(previousAccountID: string, previousCheck: Slot<JsCheck>, accountID: string): Option<Earlier> {
    match previousCheck
    case Own(check) => EarlierOf(Lookup(JsAccountResults(previousAccountID, check), accountID))
    case Inherited => if accountID != previousAccountID && accountID in INHERITED then EarlierOf(Inherited) else None
    case Undefined => None
  }

  /** What the browser compares for one account; an absent status prints as "". */
  predicate JsEmitsAt(checkID: string, title: string, accountID: string, p: Earlier, c: JsResult, e: Event) {
    && e.checkID == checkID && e.checkTitle == title && e.accountID == accountID
    && match e.kind
       case StatusChanged =>
         p.status != Some(c.status) && e.previousStatus == p.status.GetOr("") && e.currentStatus == c.status && e.finding == ""
       case NewFinding =>
         e.previousStatus == "" && e.currentStatus == "" && e.finding in JsFindings(c) && e.finding !in p.findings
       case ResolvedFinding =>
         e.previousStatus == "" && e.currentStatus == "" && e.finding in p.findings && e.finding !in JsFindings(c)
  }

  predicate JsEmitsFor(previous: Response, accountID: string, checkID: string, check: JsCheck, e: Event)
    requires previous.checks.Some?
  {
    var accounts := JsAccountResults(accountID, check);
    var prior := OldResult(previous.accountID, Lookup(previous.checks.value, checkID), e.accountID);
    && e.accountID in accounts && prior.Some?
    && JsEmitsAt(checkID, check.title, e.accountID, prior.value, accounts[e.accountID], e)
  }

  predicate JsEmits(previous: Response, current: Response, e: Event)
    requires previous.checks.Some? && current.checks.Some?
  {
    && e.checkID in current.checks.value
    && JsEmitsFor(previous, current.accountID, e.checkID, current.checks.value[e.checkID], e)
  }

  // ---- the comparator ----

  /** First by one order, then, among what it ties, by the other. */
  predicate Then(first: bool, back: bool, rest: bool) { first || (!back && rest) }

  /** The comparator handed to sort; less is what localeCompare makes of two strings. */
  predicate EventLessBy(less: (string, string) -> bool, a: Event, b: Event) {
    Then(Severity(a) < Severity(b), Severity(b) < Severity(a),
      Then(less(a.checkID, b.checkID), less(b.checkID, a.checkID),
        Then(less(a.accountID, b.accountID), less(b.accountID, a.accountID), KindLess(less, a, b))))
  }

  predicate KindLess(less: (string, string) -> bool, a: Event, b: Event) {
    Then(less(KindName(a.kind), KindName(b.kind)), less(KindName(b.kind), KindName(a.kind)), less(a.finding, b.finding))
  }

  lemma KindLessWeak(less: (string, string) -> bool, a: Event, b: Event, c: Event)
    requires WeakOrder(less)
    ensures KindLess(less, a, b) ==> !KindLess(less, b, a)
    ensures !KindLess(less, a, b) && !KindLess(less, b, c) ==> !KindLess(less, a, c)
  {
  }

  lemma EventLessByWeak(less: (string, string) -> bool)
    requires WeakOrder(less)
    ensures WeakOrder((a, b) => EventLessBy(less, a, b))
  {
    forall a, b, c
      ensures EventLessBy(less, a, b) ==> !EventLessBy(less, b, a)
      ensures !EventLessBy(less, a, b) && !EventLessBy(less, b, c) ==> !EventLessBy(less, a, c)
    {
      KindLessWeak(less, a, b, c);
    }
  }

  /** [...new Set(left)].filter(v => !new Set(right).has(v)).sort() */
  method SetDifferenceJs(left: seq<string>, right: seq<string>) returns (r: seq<string>)
    ensures r == JsSorted(Elems(left) - Elems(right))
  {
    var out: seq<string> := [];
    for i := 0 to |left|
      invariant NoDuplicates(out) && Elems(out) == Elems(left[..i]) - Elems(right)
    {
      assert left[..i + 1] == left[..i] + [left[i]];
      SnocElems(left[..i], left[i]);
      if left[i] !in out && left[i] !in right {
        SnocElems(out, left[i]);
        out := out + [left[i]];
      } else {
        assert left[i] in out ==> left[i] in Elems(out);
        assert left[i] in right ==> left[i] in Elems(right);
      }
    }
    assert left[..|left|] == left;
    r := SortKeysJs(out);
  }

  lemma JsSortedDistinct(s: set<string>)
    ensures NoDuplicates(JsSorted(s))
  {
    JsLessTotal(s);
    AscendingNoDuplicates(JsLess, JsSorted(s));
  }

  method AccountEventsJs(checkID: string, title: string, accountID: string, p: Earlier, c: JsResult)
    returns (es: seq<Event>)
    ensures NoDuplicates(es) && forall e :: e in es <==> JsEmitsAt(checkID, title, accountID, p, c, e)
  {
    es := [];
    if p.status != Some(c.status) {
      es := [Event(StatusChanged, checkID, title, accountID, p.status.GetOr(""), c.status, "")];
    }
    ghost var status := es;
    var added := SetDifferenceJs(JsFindings(c), p.findings);
    JsSortedDistinct(Elems(JsFindings(c)) - Elems(p.findings));
    es := AppendFindings(es, NewFinding, checkID, title, accountID, added);
    var resolved := SetDifferenceJs(p.findings, JsFindings(c));
    JsSortedDistinct(Elems(p.findings) - Elems(JsFindings(c)));
    es := AppendFindings(es, ResolvedFinding, checkID, title, accountID, resolved);
    forall e ensures e in es <==> JsEmitsAt(checkID, title, accountID, p, c, e) {
      assert e.finding in added <==> e.finding in Elems(added);
      assert e.finding in resolved <==> e.finding in Elems(resolved);
      assert e in status <==> e.kind.StatusChanged? && JsEmitsAt(checkID, title, accountID, p, c, e);
    }
  }

  method JsCheckEvents(previous: Response, accountID: string, checkID: string, check: JsCheck) returns (es: seq<Event>)
    requires previous.checks.Some?
    ensures NoDuplicates(es)
    ensures forall e :: e in es <==> e.checkID == checkID && JsEmitsFor(previous, accountID, checkID, check, e)
  {
    es := [];
    var previousCheck := Lookup(previous.checks.value, checkID);
    if previousCheck.Undefined? { return; }
    var accounts := JsAccountResults(accountID, check);
    var todo := accounts.Keys;
    while todo != {}
      invariant todo <= accounts.Keys && NoDuplicates(es)
      invariant forall e :: e in es <==> e.checkID == checkID && e.accountID !in todo && JsEmitsFor(previous, accountID, checkID, check, e)
    {
      var id :| id in todo;
      var prior := OldResult(previous.accountID, previousCheck, id);
      if prior.Some? {
        var more := AccountEventsJs(checkID, check.title, id, prior.value, accounts[id]);
        NoDuplicatesAppend(es, more);
        es := es + more;
      }
      todo := todo - {id};
    }
  }

  /** What the browser lists: every event there is, once, none before one that sorts first. */
  ghost predicate IsList(less: (string, string) -> bool, events: seq<Event>, previous: Response, current: Response)
    requires previous.checks.Some? && current.checks.Some?
  {
    && NoDuplicates(events) && (forall e :: e in events <==> JsEmits(previous, current, e))
    && NoInversion((a, b) => EventLessBy(less, a, b), events)
  }

  method CollectEvents(previous: Response, current: Response) returns (events: seq<Event>)
    requires previous.checks.Some? && current.checks.Some?
    ensures NoDuplicates(events) && forall e :: e in events <==> JsEmits(previous, current, e)
  {
    events := [];
    var todo := current.checks.value.Keys;
    while todo != {}
      invariant todo <= current.checks.value.Keys && NoDuplicates(events)
      invariant forall e :: e in events <==> e.checkID !in todo && JsEmits(previous, current, e)
    {
      var checkID :| checkID in todo;
      var es := JsCheckEvents(previous, current.accountID, checkID, current.checks.value[checkID]);
      NoDuplicatesAppend(events, es);
      events := events + es;
      todo := todo - {checkID};
    }
  }

  /** diffReports, for any order of strings that localeCompare may define. */
  method DiffReports(previous: Response, current: Response, less: (string, string) -> bool) returns (events: seq<Event>)
    requires previous.checks.Some? && current.checks.Some? && WeakOrder(less)
    ensures IsList(less, events, previous, current)
  {
    var collected := CollectEvents(previous, current);
    EventLessByWeak(less);
    events := Sort((a, b) => EventLessBy(less, a, b), collected);
    NoDuplicatesPermutes(collected, events);
    forall e ensures e in events <==> e in collected { assert e in multiset(events) <==> e in multiset(collected); }
  }

  /** Regressions come first, then neutral changes, then improvements, whatever localeCompare does. */
  lemma SeverityGroups(less: (string, string) -> bool, events: seq<Event>, previous: Response, current: Response)
    requires previous.checks.Some? && current.checks.Some? && IsList(less, events, previous, current)
    ensures forall i, j | 0 <= i < j < |events| :: Ranked(events[i], events[j])
  {
    forall i, j | 0 <= i < j < |events| ensures Ranked(events[i], events[j]) {
      assert !EventLessBy(less, events[j], events[i]);
      SeverityMeans(events[i]);
      SeverityMeans(events[j]);
    }
  }

  /** On the strings of the events the two orders are one. */
  ghost predicate SameOrder(less: (string, string) -> bool, es: set<Event>) {
    && (forall a, b | a in es && b in es :: less(a.checkID, b.checkID) <==> GoLess(a.checkID, b.checkID))
    && (forall a, b | a in es && b in es :: less(a.accountID, b.accountID) <==> GoLess(a.accountID, b.accountID))
    && (forall a, b | a in es && b in es :: less(KindName(a.kind), KindName(b.kind)) <==> GoLess(KindName(a.kind), KindName(b.kind)))
    && (forall a, b | a in es && b in es :: less(a.finding, b.finding) <==> GoLess(a.finding, b.finding))
  }

  lemma SameComparator(less: (string, string) -> bool, es: set<Event>, a: Event, b: Event)
    requires SameOrder(less, es) && a in es && b in es
    ensures EventLessBy(less, a, b) <==> EventLess(a, b)
  {
    StringOrder(a.checkID, b.checkID, a.checkID);
    StringOrder(a.accountID, b.accountID, a.accountID);
    StringOrder(KindName(a.kind), KindName(b.kind), KindName(a.kind));
    KindNamesDistinct();
  }

  /** SAME LIST: where the events agree and localeCompare orders their strings by bytes, the browser's
      list is the server's, event for event. */
  lemma SameList(less: (string, string) -> bool, listed: seq<Event>, report: seq<Event>,
                 previous: AttestedContent, current: AttestedContent, p: Response, c: Response)
    requires p.checks.Some? && c.checks.Some? && IsList(less, listed, p, c) && IsReport(report, previous, current)
    requires forall e :: JsEmits(p, c, e) <==> Emits(previous, current, e)
    requires SameOrder(less, Elems(report))
    ensures listed == report
  {
    var es := Elems(report);
    assert Elems(listed) == es;
    EventsTotallyOrdered(previous, current, es);
    forall i, j | 0 <= i < j < |listed| ensures EventLess(listed[i], listed[j]) {
      assert listed[i] in Elems(listed) && listed[j] in Elems(listed);
      SameComparator(less, es, listed[j], listed[i]);
    }
    AscendingUnique(EventLess, listed, report);
  }

  // ---- against the server's change set ----

  /** Account a of current check k carries the name of an inherited property and is not among the
      old accounts of a check the browser finds. */
  predicate Gap(previous: AttestedContent, current: AttestedContent, k: string, a: string) {
    && k in CheckMap(current.checks) && a in AccountResults(current, CheckMap(current.checks)[k])
    && a in INHERITED
    && if k in CheckMap(previous.checks) then a !in AccountResults(previous, CheckMap(previous.checks)[k])
       else k in INHERITED && a != previous.accountID
  }

  ghost predicate InheritedGap(previous: AttestedContent, current: AttestedContent) {
    exists k, a :: Gap(previous, current, k, a)
  }

  ghost predicate SameResults(go: map<string, CheckResult>, js: map<string, JsResult>) {
    && js.Keys == go.Keys
    && forall a | a in go :: js[a].status == go[a].status && JsFindings(js[a]) == Items(go[a].findings)
  }

  /** As far as the change set looks, the response says what the snapshot says. */
  ghost predicate SameChecks(s: AttestedContent, r: Response) {
    && r.checks.Some? && r.accountID == s.accountID && r.checks.value.Keys == CheckMap(s.checks).Keys
    && forall k | k in CheckMap(s.checks) ::
         && r.checks.value[k].title == CheckMap(s.checks)[k].title
         && SameResults(AccountResults(s, CheckMap(s.checks)[k]), JsAccountResults(r.accountID, r.checks.value[k]))
  }

  lemma DeliveredChecks(snapshot: AttestedContent, number: int -> int)
    requires HashPipeline.Delivered(snapshot, number).Some? && snapshot.checks.Some?
    ensures SameChecks(snapshot, HashPipeline.Delivered(snapshot, number).value)
  {
    var r := HashPipeline.Delivered(snapshot, number).value;
    forall k | k in snapshot.checks.value
      ensures SameResults(AccountResults(snapshot, snapshot.checks.value[k]), JsAccountResults(r.accountID, r.checks.value[k]))
    {
      DeliveredAccounts(snapshot, number, k);
    }
  }

  lemma DeliveredAccounts(snapshot: AttestedContent, number: int -> int, k: string)
    requires HashPipeline.Delivered(snapshot, number).Some? && snapshot.checks.Some? && k in snapshot.checks.value
    ensures
      var r := HashPipeline.Delivered(snapshot, number).value;
      && r.checks.Some? && k in r.checks.value && r.checks.value[k].title == snapshot.checks.value[k].title
      && var go := AccountResults(snapshot, snapshot.checks.value[k]);
         var js := JsAccountResults(r.accountID, r.checks.value[k]);
         && js.Keys == go.Keys
         && forall a | a in go :: js[a].status == go[a].status && js[a].findings == go[a].findings
  {
    var c := snapshot.checks.value[k];
    if AccountMap(c) != map[] {
      var d := HashPipeline.StoredCheck(c);
      assert AccountMap(d).Keys == AccountMap(c).Keys;
      assert HashPipeline.ReceivedResults(AccountMap(d), number).Keys == AccountMap(c).Keys;
      assert HashPipeline.ReceivedResults(AccountMap(d), number) != map[] by {
        var a :| a in AccountMap(c);
        assert a in HashPipeline.ReceivedResults(AccountMap(d), number);
      }
    }
  }

  lemma SameEventsFor(previous: AttestedContent, current: AttestedContent, p: Response, c: Response, e: Event)
    requires SameChecks(previous, p) && SameChecks(current, c)
    ensures Emits(previous, current, e) ==> JsEmits(p, c, e)
    ensures JsEmits(p, c, e) && Comparable(previous, current, e.checkID, e.accountID) ==> Emits(previous, current, e)
  {
    if Comparable(previous, current, e.checkID, e.accountID) {
      var js := JsAccountResults(p.accountID, p.checks.value[e.checkID]);
      assert OldResult(p.accountID, Lookup(p.checks.value, e.checkID), e.accountID) == EarlierOf(Own(js[e.accountID]));
    }
  }

  /** The extra events are about accounts found on the prototype. */
  lemma ExtraEvent(previous: AttestedContent, current: AttestedContent, p: Response, c: Response, e: Event)
    requires SameChecks(previous, p) && SameChecks(current, c)
    requires JsEmits(p, c, e) && !Comparable(previous, current, e.checkID, e.accountID)
    ensures InheritedGap(previous, current)
  {
    var k, a := e.checkID, e.accountID;
    assert SameResults(AccountResults(current, CheckMap(current.checks)[k]), JsAccountResults(c.accountID, c.checks.value[k]));
    if k in p.checks.value {
      assert SameResults(AccountResults(previous, CheckMap(previous.checks)[k]), JsAccountResults(p.accountID, p.checks.value[k]));
    }
    assert Gap(previous, current, k, a);
  }

  /** The status of an account found on the prototype is a change from nothing. */
  function GapEvent(c: Response, k: string, a: string): Event
    requires c.checks.Some? && k in c.checks.value && a in JsAccountResults(c.accountID, c.checks.value[k])
  {
    var check := c.checks.value[k];
    Event(StatusChanged, k, check.title, a, "", JsAccountResults(c.accountID, check)[a].status, "")
  }

  lemma GapAccount(previous: AttestedContent, current: AttestedContent, p: Response, c: Response, k: string, a: string)
    requires SameChecks(previous, p) && SameChecks(current, c) && Gap(previous, current, k, a)
    ensures k in c.checks.value && a in JsAccountResults(c.accountID, c.checks.value[k])
    ensures OldResult(p.accountID, Lookup(p.checks.value, k), a) == Some(Earlier(None, []))
  {
    assert SameResults(AccountResults(current, CheckMap(current.checks)[k]), JsAccountResults(c.accountID, c.checks.value[k]));
  }

  lemma GapShows(previous: AttestedContent, current: AttestedContent, p: Response, c: Response)
    requires SameChecks(previous, p) && SameChecks(current, c) && InheritedGap(previous, current)
    ensures exists e :: JsEmits(p, c, e) && !Emits(previous, current, e)
  {
    var k, a :| Gap(previous, current, k, a);
    GapAccount(previous, current, p, c, k, a);
    assert JsEmits(p, c, GapEvent(c, k, a)) && !Emits(previous, current, GapEvent(c, k, a));
  }

  /** SAME CHANGES: over two delivered reports the browser's events are the server's, if and only
      if no account is named like an inherited property and missing from the old snapshot. */
  lemma BrowserAgreesWithServer(previous: AttestedContent, current: AttestedContent, number: int -> int)
    requires previous.checks.Some? && current.checks.Some?
    requires HashPipeline.Delivered(previous, number).Some? && HashPipeline.Delivered(current, number).Some?
    ensures
      var p := HashPipeline.Delivered(previous, number).value;
      var c := HashPipeline.Delivered(current, number).value;
      && p.checks.Some? && c.checks.Some?
      && ((forall e :: JsEmits(p, c, e) <==> Emits(previous, current, e)) <==> !InheritedGap(previous, current))
  {
    DeliveredChecks(previous, number);
    DeliveredChecks(current, number);
    AgreesIff(previous, current, HashPipeline.Delivered(previous, number).value, HashPipeline.Delivered(current, number).value);
  }

  lemma AgreesIff(previous: AttestedContent, current: AttestedContent, p: Response, c: Response)
    requires SameChecks(previous, p) && SameChecks(current, c)
    ensures (forall e :: JsEmits(p, c, e) <==> Emits(previous, current, e)) <==> !InheritedGap(previous, current)
  {
    if InheritedGap(previous, current) {
      GapShows(previous, current, p, c);
    } else {
      forall e ensures JsEmits(p, c, e) <==> Emits(previous, current, e) {
        SameEventsFor(previous, current, p, c, e);
        if JsEmits(p, c, e) && !Comparable(previous, current, e.checkID, e.accountID) {
          ExtraEvent(previous, current, p, c, e);
        }
      }
    }
  }

  /** An account named constructor, new in the second report: the browser finds an old result for it on
      the prototype and reports a change of status, the server reports nothing. */
  lemma ConstructorAccount(number: int -> int)
    ensures
      var previous := HashPipeline.Small("no organization", HashPipeline.OneCheck({"111122223333"}));
      var current := HashPipeline.Small("no organization", HashPipeline.OneCheck({"constructor"}));
      && HashPipeline.Storable(HashPipeline.Migrated, HashPipeline.ToNewVerdict(previous))
      && HashPipeline.Storable(HashPipeline.Migrated, HashPipeline.ToNewVerdict(current))
      && HashPipeline.Delivered(previous, number).Some? && HashPipeline.Delivered(current, number).Some?
      && var p, c := HashPipeline.Delivered(previous, number).value, HashPipeline.Delivered(current, number).value;
         p.checks.Some? && c.checks.Some? && exists e :: JsEmits(p, c, e) && !Emits(previous, current, e)
  {
    var previous := HashPipeline.Small("no organization", HashPipeline.OneCheck({"111122223333"}));
    var current := HashPipeline.Small("no organization", HashPipeline.OneCheck({"constructor"}));
    var before, after := CheckMap(previous.checks)["aws.s3.public"], CheckMap(current.checks)["aws.s3.public"];
    assert "111122223333" in AccountMap(before) && "constructor" !in AccountMap(before) && "constructor" in AccountMap(after);
    assert Gap(previous, current, "aws.s3.public", "constructor");
    DeliveredChecks(previous, number);
    DeliveredChecks(current, number);
    GapShows(previous, current, HashPipeline.Delivered(previous, number).value, HashPipeline.Delivered(current, number).value);
  }
}
