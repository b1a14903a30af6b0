/** internal/api/handlers.go, handleControlHistory: one check's status timeline, account by account.
    A verdict whose stored checks do not decode has checks None. */
module ControlHistory {
  import opened Wrappers
  import opened Sorting
  import opened Report

  datatype Verdict = Verdict(scanID: string, attestedAt: int, accountID: string, checks: Option<Checks>)

  datatype Transition = Transition(
    scanID: string, attestedAt: int, accountID: string, previousStatus: string, currentStatus: string)

  /** The statuses of the check in one verdict; none when the scanner did not include it. */
  function Observed(v: Verdict, checkID: string): map<string, string> {
    if v.checks.None? || checkID !in CheckMap(v.checks.value) then map[]
    else
      var check := CheckMap(v.checks.value)[checkID];
      if AccountMap(check) == map[] then map[v.accountID := check.result.status]
      else map a | a in AccountMap(check) :: AccountMap(check)[a].status
  }

  /** Verdicts come newest first: the statuses as of verdict i. */
  function StateAsOf(vs: seq<Verdict>, checkID: string, i: nat): map<string, string>
    requires i <= |vs|
    decreases |vs| - i
  {
    if i == |vs| then map[] else StateAsOf(vs, checkID, i + 1) + Observed(vs[i], checkID)
  }

  datatype Observation = Observation(scanID: string, attestedAt: int, accountID: string, status: string)

  function Of(v: Verdict, ids: seq<string>, statuses: map<string, string>): seq<Observation>
    requires forall a | a in ids :: a in statuses
  {
    seq(|ids|, k requires 0 <= k < |ids| => Observation(v.scanID, v.attestedAt, ids[k], statuses[ids[k]]))
  }

  /** The observations of one verdict, by account. */
  ghost function Step(v: Verdict, checkID: string): seq<Observation> {
    var statuses := Observed(v, checkID);
    var ids := GoSorted(statuses.Keys);
    assert forall a | a in ids :: a in Elems(ids);
    Of(v, ids, statuses)
  }

  lemma StepScan(v: Verdict, checkID: string, o: Observation)
    requires o in Step(v, checkID)
    ensures o.scanID == v.scanID
  {
  }

  /** Those of verdict i and all older ones, oldest first. */
  ghost function Observations(vs: seq<Verdict>, checkID: string, i: nat): seq<Observation>
    requires i <= |vs|
    decreases |vs| - i
  {
    if i == |vs| then [] else Observations(vs, checkID, i + 1) + Step(vs[i], checkID)
  }

  function State(obs: seq<Observation>): map<string, string> {
    if obs == [] then map[]
    else var n := |obs| - 1; State(obs[..n])[obs[n].accountID := obs[n].status]
  }

  function StatusOr(state: map<string, string>, a: string): string { if a in state then state[a] else "" }

  predicate Unchanged(state: map<string, string>, o: Observation) {
    o.accountID in state && state[o.accountID] == o.status
  }

  function Entry(state: map<string, string>, o: Observation): Transition {
    Transition(o.scanID, o.attestedAt, o.accountID, StatusOr(state, o.accountID), o.status)
  }

  /** Run-length encoding, account by account. */
  function Encode(obs: seq<Observation>): seq<Transition> {
    if obs == [] then []
    else
      var n := |obs| - 1;
      var state := State(obs[..n]);
      if Unchanged(state, obs[n]) then Encode(obs[..n]) else Encode(obs[..n]) + [Entry(state, obs[n])]
  }

  ghost function Timeline(vs: seq<Verdict>, checkID: string): seq<Transition> {
    Encode(Observations(vs, checkID, 0))
  }

  // ---- what the store hands over (internal/store/store.go:351-371) ----

  const DEFAULT_LIMIT := 100
  const MAX_LIMIT := 500

  function Limit(limit: int): nat {
    if limit <= 0 then DEFAULT_LIMIT else if limit > MAX_LIMIT then MAX_LIMIT else limit
  }

  /** VerdictHistory: the newest verdicts of a token, up to the limit. */
  function Newest(ledger: seq<Verdict>, limit: int): (vs: seq<Verdict>)
    ensures vs <= ledger && |vs| <= MAX_LIMIT
  {
    if |ledger| <= Limit(limit) then ledger else ledger[..Limit(limit)]
  }

  /** handleControlHistory over all verdicts of a token, newest first; None is the 500 response. */
  method HandleControlHistory(ledger: seq<Verdict>, checkID: string) returns (r: Option<seq<Transition>>)
    ensures
      var window := if |ledger| <= 100 then ledger else ledger[..100];
      && (r.None? <==> exists i | 0 <= i < |window| :: window[i].checks.None?)
      && (r.Some? ==> r.value == Timeline(window, checkID))
  {
    r := WalkVerdicts(Newest(ledger, 0), checkID);
  }

  /** The loop has dealt with verdict i and all older ones. */
  ghost predicate Walked(verdicts: seq<Verdict>, checkID: string, i: nat, state: map<string, string>, ts: seq<Transition>) {
    && i <= |verdicts|
    && var obs := Observations(verdicts, checkID, i); state == State(obs) && ts == Encode(obs)
  }

  lemma NothingWalked(verdicts: seq<Verdict>, checkID: string)
    ensures Walked(verdicts, checkID, |verdicts|, map[], [])
  {
  }

  method WalkVerdicts(verdicts: seq<Verdict>, checkID: string) returns (r: Option<seq<Transition>>)
    ensures r.None? <==> exists i | 0 <= i < |verdicts| :: verdicts[i].checks.None?
    ensures r.Some? ==> r.value == Timeline(verdicts, checkID)
  {
    var previous: map<string, string> := map[];
    var transitions: seq<Transition> := [];
    NothingWalked(verdicts, checkID);
    var i := |verdicts|;
    while i > 0
      invariant 0 <= i <= |verdicts| && Walked(verdicts, checkID, i, previous, transitions)
      invariant forall j | i <= j < |verdicts| :: verdicts[j].checks.Some?
    {
      i := i - 1;
      if verdicts[i].checks.None? { return None; }
      previous, transitions := WalkNext(verdicts, checkID, i, previous, transitions);
    }
    return Some(transitions);
  }

  method WalkNext(verdicts: seq<Verdict>, checkID: string, i: nat, state: map<string, string>, ts: seq<Transition>)
    returns (previous: map<string, string>, transitions: seq<Transition>)
    requires i < |verdicts| && verdicts[i].checks.Some? && Walked(verdicts, checkID, i + 1, state, ts)
    ensures Walked(verdicts, checkID, i, previous, transitions)
  {
    previous, transitions := WalkVerdict(verdicts[i], checkID, Observations(verdicts, checkID, i + 1), state, ts);
  }

  lemma Snoc(obs: seq<Observation>, o: Observation)
    ensures State(obs + [o]) == State(obs)[o.accountID := o.status]
    ensures Encode(obs + [o]) == if Unchanged(State(obs), o) then Encode(obs) else Encode(obs) + [Entry(State(obs), o)]
  {
    assert (obs + [o])[..|obs|] == obs;
  }

  /** The loop body for one decoded verdict. */
  method WalkVerdict(v: Verdict, checkID: string, ghost obs: seq<Observation>, state: map<string, string>, ts: seq<Transition>)
    returns (previous: map<string, string>, transitions: seq<Transition>)
    requires v.checks.Some? && state == State(obs) && ts == Encode(obs)
    ensures previous == State(obs + Step(v, checkID)) && transitions == Encode(obs + Step(v, checkID))
  {
    var statuses := Observed(v, checkID);
    var keys := Keys(statuses);
    var ids := SortStrings(keys);
    assert forall a | a in ids :: a in Elems(ids);
    previous, transitions := WalkAccounts(v, ids, statuses, obs, state, ts);
  }

  method WalkAccounts(v: Verdict, ids: seq<string>, statuses: map<string, string>,
                      ghost obs: seq<Observation>, state: map<string, string>, ts: seq<Transition>)
    returns (previous: map<string, string>, transitions: seq<Transition>)
    requires state == State(obs) && ts == Encode(obs) && forall a | a in ids :: a in statuses
    ensures previous == State(obs + Of(v, ids, statuses)) && transitions == Encode(obs + Of(v, ids, statuses))
  {
    previous, transitions := state, ts;
    ghost var seen := obs;
    for k := 0 to |ids|
      invariant seen == obs + Of(v, ids[..k], statuses)
      invariant previous == State(seen) && transitions == Encode(seen)
    {
      var a := ids[k];
      var current := statuses[a];
      ghost var o := Observation(v.scanID, v.attestedAt, a, current);
      OfSnoc(v, ids, statuses, k);
      Snoc(seen, o);
      seen := seen + [o];
      if a !in previous || previous[a] != current {
        transitions := transitions + [Transition(v.scanID, v.attestedAt, a, StatusOr(previous, a), current)];
      }
      previous := previous[a := current];
    }
    assert ids[..|ids|] == ids;
  }

  lemma OfSnoc(v: Verdict, ids: seq<string>, statuses: map<string, string>, k: nat)
    requires k < |ids| && forall a | a in ids :: a in statuses
    ensures Of(v, ids[..k + 1], statuses)
            == Of(v, ids[..k], statuses) + [Observation(v.scanID, v.attestedAt, ids[k], statuses[ids[k]])]
  {
  }

  // ---- what the timeline means ----

  /** The status last seen for each account. */
  function Replay(ts: seq<Transition>): map<string, string> {
    if ts == [] then map[]
    else var n := |ts| - 1; Replay(ts[..n])[ts[n].accountID := ts[n].currentStatus]
  }

  /** The state as of verdict i is the newest observation at or before it. */
  lemma {:induction false} StateIsLatestObservation(vs: seq<Verdict>, checkID: string, i: nat, a: string)
    requires i <= |vs|
    ensures a in StateAsOf(vs, checkID, i) <==> exists j :: i <= j < |vs| && a in Observed(vs[j], checkID)
    ensures forall j | i <= j < |vs| && a in Observed(vs[j], checkID)
              && (forall k | i <= k < j :: a !in Observed(vs[k], checkID)) ::
              StateAsOf(vs, checkID, i)[a] == Observed(vs[j], checkID)[a]
    decreases |vs| - i
  {
    if i < |vs| {
      StateIsLatestObservation(vs, checkID, i + 1, a);
      assert a in Observed(vs[i], checkID) ==> StateAsOf(vs, checkID, i)[a] == Observed(vs[i], checkID)[a];
    }
  }

  lemma StateExtends(obs: seq<Observation>, v: Verdict, ids: seq<string>, statuses: map<string, string>, k: nat)
    requires k < |ids| && forall a | a in ids :: a in statuses
    ensures State(obs + Of(v, ids[..k + 1], statuses)) == State(obs + Of(v, ids[..k], statuses))[ids[k] := statuses[ids[k]]]
  {
    var o := Observation(v.scanID, v.attestedAt, ids[k], statuses[ids[k]]);
    OfSnoc(v, ids, statuses, k);
    Snoc(obs + Of(v, ids[..k], statuses), o);
    assert obs + Of(v, ids[..k + 1], statuses) == obs + Of(v, ids[..k], statuses) + [o];
  }

  /** What the first k accounts have. */
  function FirstOf(ids: seq<string>, statuses: map<string, string>, k: nat): map<string, string>
    requires k <= |ids| && forall a | a in ids :: a in statuses
  {
    if k == 0 then map[] else FirstOf(ids, statuses, k - 1)[ids[k - 1] := statuses[ids[k - 1]]]
  }

  lemma PutAfter(m: map<string, string>, n: map<string, string>, k: string, v: string)
    ensures (m + n)[k := v] == m + n[k := v]
  {
  }

  lemma {:induction false} StateAppend(obs: seq<Observation>, v: Verdict, ids: seq<string>, statuses: map<string, string>, k: nat)
    requires k <= |ids| && forall a | a in ids :: a in statuses
    ensures State(obs + Of(v, ids[..k], statuses)) == State(obs) + FirstOf(ids, statuses, k)
  {
    if k == 0 {
      assert obs + Of(v, ids[..0], statuses) == obs;
    } else {
      StateAppend(obs, v, ids, statuses, k - 1);
      StateExtends(obs, v, ids, statuses, k - 1);
      PutAfter(State(obs), FirstOf(ids, statuses, k - 1), ids[k - 1], statuses[ids[k - 1]]);
    }
  }

  lemma {:induction false} FirstOfAll(ids: seq<string>, statuses: map<string, string>, k: nat)
    requires k <= |ids| && forall a | a in ids :: a in statuses
    ensures forall a :: a in FirstOf(ids, statuses, k) <==> a in ids[..k]
    ensures forall a | a in FirstOf(ids, statuses, k) :: FirstOf(ids, statuses, k)[a] == statuses[a]
  {
    if k > 0 {
      FirstOfAll(ids, statuses, k - 1);
      assert ids[..k] == ids[..k - 1] + [ids[k - 1]];
    }
  }

  lemma StateStep(obs: seq<Observation>, v: Verdict, checkID: string)
    ensures State(obs + Step(v, checkID)) == State(obs) + Observed(v, checkID)
  {
    var statuses := Observed(v, checkID);
    var ids := GoSorted(statuses.Keys);
    assert forall a :: a in ids <==> a in Elems(ids);
    StateAll(obs, v, ids, statuses);
  }

  lemma StateAll(obs: seq<Observation>, v: Verdict, ids: seq<string>, statuses: map<string, string>)
    requires forall a :: a in ids <==> a in statuses
    ensures State(obs + Of(v, ids, statuses)) == State(obs) + statuses
  {
    StateAppend(obs, v, ids, statuses, |ids|);
    FirstOfAll(ids, statuses, |ids|);
    assert ids[..|ids|] == ids;
    assert FirstOf(ids, statuses, |ids|) == statuses;
  }

  lemma {:induction false} StateOfObservations(vs: seq<Verdict>, checkID: string, i: nat)
    requires i <= |vs|
    ensures State(Observations(vs, checkID, i)) == StateAsOf(vs, checkID, i)
    decreases |vs| - i
  {
    if i < |vs| {
      StateOfObservations(vs, checkID, i + 1);
      StateStep(Observations(vs, checkID, i + 1), vs[i], checkID);
    }
  }

  lemma ReplaySnoc(ts: seq<Transition>, t: Transition)
    ensures Replay(ts + [t]) == Replay(ts)[t.accountID := t.currentStatus]
  {
    assert (ts + [t])[..|ts|] == ts;
  }

  lemma {:induction false} ReplayEncode(obs: seq<Observation>)
    ensures Replay(Encode(obs)) == State(obs)
  {
    if obs != [] {
      var n := |obs| - 1;
      var state := State(obs[..n]);
      ReplayEncode(obs[..n]);
      ReplaySnoc(Encode(obs[..n]), Entry(state, obs[n]));
    }
  }

  /** Each entry is an observation. */
  lemma {:induction false} EntryIsObservation(obs: seq<Observation>, t: Transition)
    requires t in Encode(obs)
    ensures Observation(t.scanID, t.attestedAt, t.accountID, t.currentStatus) in obs
  {
    var n := |obs| - 1;
    if t in Encode(obs[..n]) { EntryIsObservation(obs[..n], t); }
  }

  lemma EncodeSnoc(obs: seq<Observation>, o: Observation)
    ensures Encode(obs + [o]) == if Unchanged(State(obs), o) then Encode(obs) else Encode(obs) + [Entry(State(obs), o)]
  {
    assert (obs + [o])[..|obs|] == obs;
  }

  lemma SelectNext(obs: seq<Observation>, o: Observation, scans: set<string>)
    ensures Select(Encode(obs + [o]), scans) ==
      Select(Encode(obs), scans) + if o.scanID in scans && !Unchanged(State(obs), o) then [Entry(State(obs), o)] else []
  {
    EncodeSnoc(obs, o);
    SelectSnoc(Encode(obs), Entry(State(obs), o), scans);
  }

  predicate AllIn(obs: seq<Observation>, scans: set<string>) {
    obs == [] || (obs[|obs| - 1].scanID in scans && AllIn(obs[..|obs| - 1], scans))
  }

  predicate NoneIn(obs: seq<Observation>, scans: set<string>) {
    obs == [] || (obs[|obs| - 1].scanID !in scans && NoneIn(obs[..|obs| - 1], scans))
  }

  lemma {:induction false} SelectEverything(obs: seq<Observation>, scans: set<string>)
    requires AllIn(obs, scans)
    ensures Select(Encode(obs), scans) == Encode(obs)
  {
    if obs != [] {
      var n := |obs| - 1;
      SelectEverything(obs[..n], scans);
      SelectNext(obs[..n], obs[n], scans);
      EncodeSnoc(obs[..n], obs[n]);
      assert obs == obs[..n] + [obs[n]];
    }
  }

  /** When a set of scans holds exactly the older observations, its entries are theirs. */
  lemma {:induction false} CutAt(older: seq<Observation>, newer: seq<Observation>, scans: set<string>)
    requires AllIn(older, scans) && NoneIn(newer, scans)
    ensures Select(Encode(older + newer), scans) == Encode(older)
  {
    if newer == [] {
      assert older + newer == older;
      SelectEverything(older, scans);
    } else {
      var n := |newer| - 1;
      CutAt(older, newer[..n], scans);
      SelectNext(older + newer[..n], newer[n], scans);
      assert older + newer == (older + newer[..n]) + [newer[n]];
    }
  }

  lemma {:induction false} AllInMeans(obs: seq<Observation>, scans: set<string>)
    requires forall o | o in obs :: o.scanID in scans
    ensures AllIn(obs, scans)
  {
    if obs != [] { AllInMeans(obs[..|obs| - 1], scans); }
  }

  lemma {:induction false} NoneInMeans(obs: seq<Observation>, scans: set<string>)
    requires forall o | o in obs :: o.scanID !in scans
    ensures NoneIn(obs, scans)
  {
    if obs != [] { NoneInMeans(obs[..|obs| - 1], scans); }
  }

  /** The entries of some of the scans, in order. */
  function Select(ts: seq<Transition>, scans: set<string>): seq<Transition> {
    if ts == [] then []
    else var n := |ts| - 1; if ts[n].scanID in scans then Select(ts[..n], scans) + [ts[n]] else Select(ts[..n], scans)
  }

  lemma SelectSnoc(ts: seq<Transition>, t: Transition, scans: set<string>)
    ensures Select(ts + [t], scans) == if t.scanID in scans then Select(ts, scans) + [t] else Select(ts, scans)
  {
    assert (ts + [t])[..|ts|] == ts;
  }

  predicate DistinctScans(vs: seq<Verdict>) {
    forall i, j | 0 <= i < j < |vs| :: vs[i].scanID != vs[j].scanID
  }

  /** The scans of verdict i and all older ones. */
  function ScansFrom(vs: seq<Verdict>, i: nat): set<string>
    requires i <= |vs|
  {
    set j | i <= j < |vs| :: vs[j].scanID
  }

  function ScansBetween(vs: seq<Verdict>, m: nat, i: nat): set<string>
    requires i <= |vs|
  {
    set j | m <= j < i :: vs[j].scanID
  }

  /** The observations of the verdicts from m up to i, oldest first. */
  ghost function Newer(vs: seq<Verdict>, checkID: string, m: nat, i: nat): seq<Observation>
    requires m <= i <= |vs|
    decreases i - m
  {
    if m == i then [] else Newer(vs, checkID, m + 1, i) + Step(vs[m], checkID)
  }

  lemma Regroup<T>(a: seq<T>, b: seq<T>, c: seq<T>)
    ensures (a + b) + c == a + (b + c)
  {
  }

  lemma {:induction false} ObservationsSplit(vs: seq<Verdict>, checkID: string, m: nat, i: nat)
    requires m <= i <= |vs|
    ensures Observations(vs, checkID, m) == Observations(vs, checkID, i) + Newer(vs, checkID, m, i)
    decreases i - m
  {
    if m < i {
      ObservationsSplit(vs, checkID, m + 1, i);
      Regroup(Observations(vs, checkID, i), Newer(vs, checkID, m + 1, i), Step(vs[m], checkID));
    }
  }

  lemma {:induction false} NewerScans(vs: seq<Verdict>, checkID: string, m: nat, i: nat, o: Observation)
    requires m <= i <= |vs| && o in Newer(vs, checkID, m, i)
    ensures o.scanID in ScansBetween(vs, m, i)
    decreases i - m
  {
    if o in Step(vs[m], checkID) { StepScan(vs[m], checkID, o); } else { NewerScans(vs, checkID, m + 1, i, o); }
  }

  lemma {:induction false} ObservationScans(vs: seq<Verdict>, checkID: string, i: nat, o: Observation)
    requires i <= |vs| && o in Observations(vs, checkID, i)
    ensures o.scanID in ScansFrom(vs, i)
    decreases |vs| - i
  {
    if o in Step(vs[i], checkID) { StepScan(vs[i], checkID, o); } else { ObservationScans(vs, checkID, i + 1, o); }
  }

  /** The scans of verdict i and older ones hold exactly the observations made by then. */
  lemma OldAndNew(vs: seq<Verdict>, checkID: string, i: nat)
    requires DistinctScans(vs) && i <= |vs|
    ensures AllIn(Observations(vs, checkID, i), ScansFrom(vs, i)) && NoneIn(Newer(vs, checkID, 0, i), ScansFrom(vs, i))
  {
    var older, newer, scans := Observations(vs, checkID, i), Newer(vs, checkID, 0, i), ScansFrom(vs, i);
    assert ScansBetween(vs, 0, i) !! scans;
    forall o | o in older ensures o.scanID in scans { ObservationScans(vs, checkID, i, o); }
    forall o | o in newer ensures o.scanID !in scans { NewerScans(vs, checkID, 0, i, o); }
    AllInMeans(older, scans);
    NoneInMeans(newer, scans);
  }

  /** LOSSLESS: replaying the entries of verdict i and all older ones gives every account's status as
      of verdict i. */
  lemma TimelineIsLossless(vs: seq<Verdict>, checkID: string, i: nat)
    requires DistinctScans(vs) && i <= |vs|
    ensures Replay(Select(Timeline(vs, checkID), ScansFrom(vs, i))) == StateAsOf(vs, checkID, i)
  {
    ObservationsSplit(vs, checkID, 0, i);
    OldAndNew(vs, checkID, i);
    CutAt(Observations(vs, checkID, i), Newer(vs, checkID, 0, i), ScansFrom(vs, i));
    ReplayEncode(Observations(vs, checkID, i));
    StateOfObservations(vs, checkID, i);
  }

  /** Entry q starts from the status its account had, and changes it; the first entry of an account
      starts from "". */
  predicate Changes(ts: seq<Transition>, q: nat)
    requires q < |ts|
  {
    var prior := Replay(ts[..q]);
    && ts[q].previousStatus == StatusOr(prior, ts[q].accountID)
    && (ts[q].accountID in prior ==> ts[q].currentStatus != ts[q].previousStatus)
  }

  lemma {:induction false} EncodeChanges(obs: seq<Observation>)
    ensures forall q | 0 <= q < |Encode(obs)| :: Changes(Encode(obs), q)
  {
    if obs != [] {
      var n := |obs| - 1;
      var ts, all := Encode(obs[..n]), Encode(obs);
      EncodeChanges(obs[..n]);
      ReplayEncode(obs[..n]);
      forall q | 0 <= q < |all| ensures Changes(all, q) {
        assert all[..q] == ts[..q];
        if q < |ts| { assert Changes(ts, q); } else { assert ts[..q] == ts; }
      }
    }
  }

  predicate Adjacent(ts: seq<Transition>, p: nat, q: nat) {
    && p < q < |ts| && ts[p].accountID == ts[q].accountID
    && forall k | p < k < q :: ts[k].accountID != ts[q].accountID
  }

  lemma {:induction false} ReplayLast(ts: seq<Transition>, p: nat, a: string)
    requires p < |ts| && ts[p].accountID == a && forall k | p < k < |ts| :: ts[k].accountID != a
    ensures a in Replay(ts) && Replay(ts)[a] == ts[p].currentStatus
  {
    if p < |ts| - 1 { ReplayLast(ts[..|ts| - 1], p, a); }
  }

  lemma {:induction false} ReplayNone(ts: seq<Transition>, a: string)
    requires forall k | 0 <= k < |ts| :: ts[k].accountID != a
    ensures a !in Replay(ts)
  {
    if ts != [] { ReplayNone(ts[..|ts| - 1], a); }
  }

  /** MINIMAL: of two neighbouring entries of an account the later one starts from the status the
      earlier one reached and differs from it. */
  lemma TimelineIsMinimal(vs: seq<Verdict>, checkID: string, p: nat, q: nat)
    requires Adjacent(Timeline(vs, checkID), p, q)
    ensures
      var ts := Timeline(vs, checkID);
      ts[q].previousStatus == ts[p].currentStatus && ts[q].currentStatus != ts[p].currentStatus
  {
    var ts := Timeline(vs, checkID);
    EncodeChanges(Observations(vs, checkID, 0));
    assert Changes(ts, q);
    ReplayLast(ts[..q], p, ts[q].accountID);
  }

  predicate First(ts: seq<Transition>, q: nat)
    requires q < |ts|
  {
    forall k | 0 <= k < q :: ts[k].accountID != ts[q].accountID
  }

  /** An entry leaves the status as it was exactly when it is its account's first and observes "". */
  lemma StillEntry(vs: seq<Verdict>, checkID: string, q: nat)
    requires q < |Timeline(vs, checkID)|
    ensures
      var ts := Timeline(vs, checkID);
      ts[q].previousStatus == ts[q].currentStatus <==> First(ts, q) && ts[q].currentStatus == ""
  {
    var ts := Timeline(vs, checkID);
    EncodeChanges(Observations(vs, checkID, 0));
    assert Changes(ts, q);
    var a := ts[q].accountID;
    if First(ts, q) {
      ReplayNone(ts[..q], a);
    } else {
      var p := LastAbout(ts, q, a);
      ReplayLast(ts[..q], p, a);
    }
  }

  lemma {:induction false} LastAbout(ts: seq<Transition>, q: nat, a: string) returns (p: nat)
    requires q <= |ts| && exists k | 0 <= k < q :: ts[k].accountID == a
    ensures p < q && ts[p].accountID == a && forall k | p < k < q :: ts[k].accountID != a
  {
    p := q - 1;
    if ts[q - 1].accountID != a { p := LastAbout(ts, q - 1, a); }
  }

  // ---- the window against the whole ledger ----

  lemma OnTop(a: map<string, string>, b: map<string, string>, c: map<string, string>)
    ensures (a + b) + c == a + (b + c)
  {
  }

  /** The states of the ledger are those of its newest part on top of what was known before it. */
  lemma {:induction false} StateOfWindow(ledger: seq<Verdict>, window: seq<Verdict>, checkID: string, i: nat)
    requires window <= ledger && i <= |window|
    ensures StateAsOf(ledger, checkID, i) == StateAsOf(ledger, checkID, |window|) + StateAsOf(window, checkID, i)
    decreases |window| - i
  {
    if i < |window| {
      StateOfWindow(ledger, window, checkID, i + 1);
      assert window[i] == ledger[i];
      OnTop(StateAsOf(ledger, checkID, |window|), StateAsOf(window, checkID, i + 1), Observed(window[i], checkID));
    }
  }

  /** LOSSLESS IN THE LEDGER: the entries of the window up to verdict i give every account's status as of
      verdict i in the whole ledger if and only if every account known before the window is observed again
      by then. */
  lemma WindowIsLosslessIff(ledger: seq<Verdict>, window: seq<Verdict>, checkID: string, i: nat)
    requires window <= ledger && DistinctScans(window) && i <= |window|
    ensures
      var replayed := Replay(Select(Timeline(window, checkID), ScansFrom(window, i)));
      && StateAsOf(ledger, checkID, i) == StateAsOf(ledger, checkID, |window|) + replayed
      && (replayed == StateAsOf(ledger, checkID, i) <==> StateAsOf(ledger, checkID, |window|).Keys <= replayed.Keys)
  {
    TimelineIsLossless(window, checkID, i);
    StateOfWindow(ledger, window, checkID, i);
    var older, replayed := StateAsOf(ledger, checkID, |window|), StateAsOf(window, checkID, i);
    if older.Keys <= replayed.Keys { assert older + replayed == replayed; }
    assert older.Keys <= (older + replayed).Keys;
  }

  /** Verdict k is the oldest that observes the account. */
  predicate Oldest(vs: seq<Verdict>, checkID: string, k: nat, a: string) {
    && k < |vs| && a in Observed(vs[k], checkID)
    && forall j | k < j < |vs| :: a !in Observed(vs[j], checkID)
  }

  /** The entry records one of the observations. */
  predicate EntryOf(t: Transition, obs: seq<Observation>) {
    exists o :: o in obs && o.scanID == t.scanID && o.accountID == t.accountID
  }

  lemma {:induction false} EncodeAppend(obs: seq<Observation>, more: seq<Observation>)
    ensures Encode(obs) <= Encode(obs + more)
  {
    if more == [] {
      assert obs + more == obs;
    } else {
      var n := |more| - 1;
      EncodeAppend(obs, more[..n]);
      assert obs + more == (obs + more[..n]) + [more[n]];
      EncodeSnoc(obs + more[..n], more[n]);
    }
  }

  /** Entries after those of obs are of what follows. */
  lemma {:induction false} EncodeEntry(obs: seq<Observation>, more: seq<Observation>, q: nat)
    requires |Encode(obs)| <= q < |Encode(obs + more)|
    ensures EntryOf(Encode(obs + more)[q], more)
  {
    assert more == [] ==> obs + more == obs;
    var n := |more| - 1;
    assert obs + more == (obs + more[..n]) + [more[n]];
    EncodeSnoc(obs + more[..n], more[n]);
    if q < |Encode(obs + more[..n])| {
      EncodeEntry(obs, more[..n], q);
      EntryOfMore(Encode(obs + more[..n])[q], more[..n], more);
    } else {
      assert more[n] in more;
    }
  }

  lemma EntryOfMore(t: Transition, obs: seq<Observation>, more: seq<Observation>)
    requires EntryOf(t, obs) && obs <= more
    ensures EntryOf(t, more)
  {
    var o :| o in obs && o.scanID == t.scanID && o.accountID == t.accountID;
    assert o in more;
  }

  lemma StepAccount(v: Verdict, checkID: string, o: Observation)
    requires o in Step(v, checkID)
    ensures o.accountID in Observed(v, checkID)
  {
    var ids := GoSorted(Observed(v, checkID).Keys);
    assert o.accountID in ids;
    assert o.accountID in Elems(ids);
  }

  lemma FirstOfStep(vs: seq<Verdict>, checkID: string, i: nat, ts: seq<Transition>, t: Transition)
    requires i < |vs| && ts == Encode(Observations(vs, checkID, i + 1)) && EntryOf(t, Step(vs[i], checkID))
    requires forall k | 0 <= k < |ts| :: ts[k].accountID != t.accountID
    ensures Oldest(vs, checkID, i, t.accountID) && vs[i].scanID == t.scanID
  {
    var o :| o in Step(vs[i], checkID) && o.scanID == t.scanID && o.accountID == t.accountID;
    StepScan(vs[i], checkID, o);
    StepAccount(vs[i], checkID, o);
    ReplayNone(ts, t.accountID);
    ReplayEncode(Observations(vs, checkID, i + 1));
    StateOfObservations(vs, checkID, i + 1);
    StateIsLatestObservation(vs, checkID, i + 1, t.accountID);
  }

  /** An account's first entry is its oldest observation. */
  lemma {:induction false} FirstIsOldest(vs: seq<Verdict>, checkID: string, i: nat, q: nat) returns (k: nat)
    requires i <= |vs| && q < |Encode(Observations(vs, checkID, i))| && First(Encode(Observations(vs, checkID, i)), q)
    ensures i <= k && Oldest(vs, checkID, k, Encode(Observations(vs, checkID, i))[q].accountID)
    ensures vs[k].scanID == Encode(Observations(vs, checkID, i))[q].scanID
    decreases |vs| - i
  {
    var older, step := Observations(vs, checkID, i + 1), Step(vs[i], checkID);
    var ts, all := Encode(older), Encode(older + step);
    EncodeAppend(older, step);
    if q < |ts| {
      k := FirstIsOldest(vs, checkID, i + 1, q);
    } else {
      k := i;
      EncodeEntry(older, step, q);
      FirstOfStep(vs, checkID, i, ts, all[q]);
    }
  }

  /** TRUE FIRST: an account's first entry in the window is its first observation in the ledger if and only
      if the account was not known before the window. */
  lemma FirstInLedgerIff(ledger: seq<Verdict>, window: seq<Verdict>, checkID: string, q: nat) returns (k: nat)
    requires window <= ledger && q < |Timeline(window, checkID)| && First(Timeline(window, checkID), q)
    ensures
      var t := Timeline(window, checkID)[q];
      && Oldest(window, checkID, k, t.accountID) && window[k].scanID == t.scanID
      && (Oldest(ledger, checkID, k, t.accountID) <==> t.accountID !in StateAsOf(ledger, checkID, |window|))
  {
    k := FirstIsOldest(window, checkID, 0, q);
    OldestInLedgerIff(ledger, window, checkID, k, Timeline(window, checkID)[q].accountID);
  }

  lemma OldestInLedgerIff(ledger: seq<Verdict>, window: seq<Verdict>, checkID: string, k: nat, a: string)
    requires window <= ledger && Oldest(window, checkID, k, a)
    ensures Oldest(ledger, checkID, k, a) <==> a !in StateAsOf(ledger, checkID, |window|)
  {
    StateIsLatestObservation(ledger, checkID, |window|, a);
    assert forall j | 0 <= j < |window| :: window[j] == ledger[j];
  }

  // ---- in the verdicts' own terms ----

  /** The verdict decodes and says s of the check in the account: by account, or for its own account when it has no
      results by account. */
  predicate Sees(v: Verdict, checkID: string, a: string, s: string) {
    && v.checks.Some? && v.checks.value.Some? && checkID in v.checks.value.value
    && var check := v.checks.value.value[checkID];
       if check.accounts.Some? && check.accounts.value != map[] then a in check.accounts.value && check.accounts.value[a].status == s
       else a == v.accountID && check.result.status == s
  }

  ghost predicate Unseen(v: Verdict, checkID: string, a: string) { forall s :: !Sees(v, checkID, a, s) }

  lemma SeesIff(v: Verdict, checkID: string, a: string, s: string)
    ensures Sees(v, checkID, a, s) <==> a in Observed(v, checkID) && Observed(v, checkID)[a] == s
  {
  }

  lemma UnseenIff(v: Verdict, checkID: string, a: string)
    ensures Unseen(v, checkID, a) <==> a !in Observed(v, checkID)
  {
    forall s ensures Sees(v, checkID, a, s) <==> a in Observed(v, checkID) && Observed(v, checkID)[a] == s { SeesIff(v, checkID, a, s); }
    if a in Observed(v, checkID) { assert Sees(v, checkID, a, Observed(v, checkID)[a]); }
  }

  /** Verdict j says s of the account, and no verdict from i up to j, all newer, says anything. */
  ghost predicate SaysLast(vs: seq<Verdict>, checkID: string, i: nat, j: int, a: string, s: string) {
    i <= j < |vs| && Sees(vs[j], checkID, a, s) && forall k | i <= k < j :: Unseen(vs[k], checkID, a)
  }

  lemma {:induction false} StateSays(vs: seq<Verdict>, checkID: string, i: nat, a: string, s: string)
    requires i <= |vs|
    ensures a in StateAsOf(vs, checkID, i) && StateAsOf(vs, checkID, i)[a] == s <==> exists j :: SaysLast(vs, checkID, i, j, a, s)
    decreases |vs| - i
  {
    if i < |vs| {
      var next: nat := i + 1;
      StateSays(vs, checkID, next, a, s);
      SeesIff(vs[i], checkID, a, s);
      UnseenIff(vs[i], checkID, a);
      if a in Observed(vs[i], checkID) {
        var t := Observed(vs[i], checkID)[a];
        SeesIff(vs[i], checkID, a, t);
        assert SaysLast(vs, checkID, i, i, a, t);
      } else {
        if j :| SaysLast(vs, checkID, i, j, a, s) { SaysLastNext(vs, checkID, i, j, a, s); }
        if j :| SaysLast(vs, checkID, next, j, a, s) { SaysLastNext(vs, checkID, i, j, a, s); }
      }
    }
  }

  lemma SaysLastNext(vs: seq<Verdict>, checkID: string, i: nat, j: int, a: string, s: string)
    requires i < |vs| && Unseen(vs[i], checkID, a)
    ensures SaysLast(vs, checkID, i, j, a, s) <==> SaysLast(vs, checkID, i + 1, j, a, s)
  {
    assert i == j ==> !SaysLast(vs, checkID, i, j, a, s);
  }

  /** WHAT IS REPLAYED: the entries of verdict i and all older ones give an account status s if and only if s is what
      the newest of these verdicts that says anything of the account says. */
  lemma TimelineTells(vs: seq<Verdict>, checkID: string, i: nat, a: string, s: string)
    requires DistinctScans(vs) && i <= |vs|
    ensures
      var replayed := Replay(Select(Timeline(vs, checkID), ScansFrom(vs, i)));
      a in replayed && replayed[a] == s <==> exists j :: SaysLast(vs, checkID, i, j, a, s)
  {
    TimelineIsLossless(vs, checkID, i);
    StateSays(vs, checkID, i, a, s);
  }

  lemma StepSees(v: Verdict, checkID: string, o: Observation)
    requires o in Step(v, checkID)
    ensures o.scanID == v.scanID && o.attestedAt == v.attestedAt && Sees(v, checkID, o.accountID, o.status)
  {
    StepAccount(v, checkID, o);
    SeesIff(v, checkID, o.accountID, o.status);
  }

  lemma {:induction false} ObservationSeen(vs: seq<Verdict>, checkID: string, i: nat, o: Observation) returns (j: nat)
    requires i <= |vs| && o in Observations(vs, checkID, i)
    ensures i <= j < |vs| && vs[j].scanID == o.scanID && vs[j].attestedAt == o.attestedAt && Sees(vs[j], checkID, o.accountID, o.status)
    decreases |vs| - i
  {
    if o in Step(vs[i], checkID) {
      j := i;
      StepSees(vs[i], checkID, o);
    } else {
      j := ObservationSeen(vs, checkID, i + 1, o);
    }
  }

  /** Each entry is what one of the verdicts says, under its scan and at its time. */
  lemma EntrySeen(vs: seq<Verdict>, checkID: string, t: Transition) returns (j: nat)
    requires t in Timeline(vs, checkID)
    ensures j < |vs| && vs[j].scanID == t.scanID && vs[j].attestedAt == t.attestedAt && Sees(vs[j], checkID, t.accountID, t.currentStatus)
  {
    EntryIsObservation(Observations(vs, checkID, 0), t);
    j := ObservationSeen(vs, checkID, 0, Observation(t.scanID, t.attestedAt, t.accountID, t.currentStatus));
  }
}
