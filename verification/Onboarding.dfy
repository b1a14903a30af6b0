/** countConnectedMembers in internal/providers/onboarding.go as steps of its goroutines: the loop
    that spawns probes, and one worker an account. sem is the buffered channel's length, wg the
    WaitGroup's counter, mu the holder of the mutex. The increment is a read and a write. */
module Onboarding {
  import opened Wrappers
  import opened Sorting
  import opened Organization

  const MAX_MEMBER_ACCOUNT_FANOUT := 10

  /** What a worker does next. */
  datatype Pc = Unborn | Probe | Lock | Read | Write(seen: int) | Unlock | Release | Finish | Gone

  /** What the spawning goroutine does next: take the next account, send on sem, start the worker
      (wg.Add is done on leaving Next), wait, or it has returned. */
  datatype MainPc = Next | Send | Spawn | Waiting | Returned(connected: int)

  datatype State = State(i: nat, main: MainPc, pcs: seq<Pc>, sem: nat, wg: nat, mu: Option<nat>, connected: int)

  /** The input, and how each probe turns out. */
  datatype Input = Input(accounts: seq<string>, customer: string, ok: seq<bool>)

  ghost predicate Valid(e: Input) { |e.ok| == |e.accounts| }

  function Init(e: Input): State {
    State(0, Next, seq(|e.accounts|, _ => Unborn), 0, 0, None, 1)
  }

  /** One step of the spawning goroutine; None when it is blocked or done. */
  function MainStep(e: Input, s: State): Option<State> {
    match s.main
    case Next =>
      if s.i >= |e.accounts| then Some(s.(main := Waiting))
      else if e.accounts[s.i] == e.customer then Some(s.(i := s.i + 1))
      else Some(s.(main := Send, wg := s.wg + 1))
    case Send =>
      if s.sem < MAX_MEMBER_ACCOUNT_FANOUT then Some(s.(main := Spawn, sem := s.sem + 1)) else None
    case Spawn =>
      if s.i < |s.pcs| then Some(s.(main := Next, pcs := s.pcs[s.i := Probe], i := s.i + 1)) else None
    case Waiting =>
      if s.wg == 0 then Some(s.(main := Returned(s.connected))) else None
    case Returned(_) => None
  }

  /** One step of worker j; None when it is blocked, unborn or gone. */
  function WorkerStep(e: Input, s: State, j: nat): Option<State>
    requires Valid(e) && |s.pcs| == |e.accounts| && j < |s.pcs|
  {
    match s.pcs[j]
    case Unborn => None
    case Probe => Some(s.(pcs := s.pcs[j := if e.ok[j] then Lock else Release]))
    case Lock => if s.mu.None? then Some(s.(pcs := s.pcs[j := Read], mu := Some(j))) else None
    case Read => Some(s.(pcs := s.pcs[j := Write(s.connected)]))
    case Write(seen) => Some(s.(pcs := s.pcs[j := Unlock], connected := seen + 1))
    case Unlock => Some(s.(pcs := s.pcs[j := Release], mu := None))
    case Release => if s.sem > 0 then Some(s.(pcs := s.pcs[j := Finish], sem := s.sem - 1)) else None
    case Finish => if s.wg > 0 then Some(s.(pcs := s.pcs[j := Gone], wg := s.wg - 1)) else None
    case Gone => None
  }

  ghost predicate Step(e: Input, s: State, s': State)
    requires Valid(e) && |s.pcs| == |e.accounts|
  {
    MainStep(e, s) == Some(s') || exists j: nat | j < |s.pcs| :: WorkerStep(e, s, j) == Some(s')
  }

  // ---- sums over the workers ----

  function Sum(pcs: seq<Pc>, ok: seq<bool>, f: (Pc, bool) -> int): int
    requires |pcs| == |ok|
  {
    if pcs == [] then 0 else f(pcs[0], ok[0]) + Sum(pcs[1..], ok[1..], f)
  }

  lemma {:induction false} SumUpdate(pcs: seq<Pc>, ok: seq<bool>, f: (Pc, bool) -> int, j: nat, pc: Pc)
    requires |pcs| == |ok| && j < |pcs|
    ensures Sum(pcs[j := pc], ok, f) == Sum(pcs, ok, f) - f(pcs[j], ok[j]) + f(pc, ok[j])
  {
    if j > 0 {
      SumUpdate(pcs[1..], ok[1..], f, j - 1, pc);
      assert pcs[j := pc][1..] == pcs[1..][j - 1 := pc];
    } else {
      assert pcs[j := pc][1..] == pcs[1..];
    }
  }

  lemma {:induction false} SumAtLeast(pcs: seq<Pc>, ok: seq<bool>, f: (Pc, bool) -> int, j: nat)
    requires |pcs| == |ok| && j < |pcs| && forall pc, b :: f(pc, b) >= 0
    ensures Sum(pcs, ok, f) >= f(pcs[j], ok[j])
  {
    if j > 0 { SumAtLeast(pcs[1..], ok[1..], f, j - 1); }
    if j == 0 { SumNonNegative(pcs[1..], ok[1..], f); }
  }

  lemma {:induction false} SumNonNegative(pcs: seq<Pc>, ok: seq<bool>, f: (Pc, bool) -> int)
    requires |pcs| == |ok| && forall pc, b :: f(pc, b) >= 0
    ensures Sum(pcs, ok, f) >= 0
  {
    if pcs != [] { SumNonNegative(pcs[1..], ok[1..], f); }
  }

  lemma {:induction false} SumZero(pcs: seq<Pc>, ok: seq<bool>, f: (Pc, bool) -> int)
    requires |pcs| == |ok| && forall j | 0 <= j < |pcs| :: f(pcs[j], ok[j]) == 0
    ensures Sum(pcs, ok, f) == 0
  {
    if pcs != [] { SumZero(pcs[1..], ok[1..], f); }
  }

  lemma {:induction false} SumBelow(pcs: seq<Pc>, ok: seq<bool>, f: (Pc, bool) -> int, g: (Pc, bool) -> int)
    requires |pcs| == |ok| && forall pc, b :: f(pc, b) <= g(pc, b)
    ensures Sum(pcs, ok, f) <= Sum(pcs, ok, g)
  {
    if pcs != [] { SumBelow(pcs[1..], ok[1..], f, g); }
  }

  function InFlight(pc: Pc, ok: bool): int { if pc.Probe? then 1 else 0 }

  /** Holds a slot of the semaphore. */
  function Holding(pc: Pc, ok: bool): int {
    match pc case Unborn => 0 case Finish => 0 case Gone => 0 case _ => 1
  }

  /** Counted by the WaitGroup. */
  function Live(pc: Pc, ok: bool): int {
    match pc case Unborn => 0 case Gone => 0 case _ => 1
  }

  predicate InCritical(pc: Pc) { pc.Read? || pc.Write? || pc.Unlock? }

  /** Has incremented the counter. */
  function Counted(pc: Pc, ok: bool): int {
    if pc.Unlock? || (ok && (pc.Release? || pc.Finish? || pc.Gone?)) then 1 else 0
  }

  // ---- the inductive invariant ----

  /** Who has been spawned. */
  ghost predicate Spawned(e: Input, s: State) {
    && Valid(e) && |s.pcs| == |e.accounts| && s.i <= |e.accounts|
    && (forall j | 0 <= j < |s.pcs| :: !s.pcs[j].Unborn? <==> j < s.i && e.accounts[j] != e.customer)
    && (s.main.Send? || s.main.Spawn? ==> s.i < |e.accounts| && e.accounts[s.i] != e.customer)
    && (s.main.Waiting? || s.main.Returned? ==> s.i == |e.accounts|)
  }

  /** The channel, the WaitGroup and the counter say how far the workers are. */
  ghost predicate Counts(e: Input, s: State)
    requires |s.pcs| == |e.ok|
  {
    && s.sem == Sum(s.pcs, e.ok, Holding) + (if s.main.Spawn? then 1 else 0)
    && s.sem <= MAX_MEMBER_ACCOUNT_FANOUT
    && s.wg == Sum(s.pcs, e.ok, Live) + (if s.main.Send? || s.main.Spawn? then 1 else 0)
    && s.connected == 1 + Sum(s.pcs, e.ok, Counted)
    && (s.main.Returned? ==> s.wg == 0 && s.main.connected == s.connected)
  }

  /** Mutual exclusion: whoever is between Lock and Unlock holds the mutex, and nobody else has
      changed the counter since it was read. */
  ghost predicate Exclusion(e: Input, s: State)
    requires |s.pcs| == |e.ok|
  {
    && (s.mu.Some? ==> s.mu.value < |s.pcs| && InCritical(s.pcs[s.mu.value]))
    && (forall j | 0 <= j < |s.pcs| && InCritical(s.pcs[j]) :: s.mu == Some(j))
    && (forall j | 0 <= j < |s.pcs| && s.pcs[j].Write? :: s.pcs[j].seen == s.connected)
    && (forall j | 0 <= j < |s.pcs| && (s.pcs[j].Lock? || InCritical(s.pcs[j])) :: e.ok[j])
  }

  ghost predicate Inv(e: Input, s: State) {
    Spawned(e, s) && Counts(e, s) && Exclusion(e, s)
  }

  lemma InvInit(e: Input)
    requires Valid(e)
    ensures Inv(e, Init(e))
  {
    SumZero(Init(e).pcs, e.ok, Holding);
    SumZero(Init(e).pcs, e.ok, Live);
    SumZero(Init(e).pcs, e.ok, Counted);
  }

  lemma InvSpawn(e: Input, s: State, s': State)
    requires Inv(e, s) && s.main.Spawn? && MainStep(e, s) == Some(s')
    ensures Inv(e, s')
  {
    SumUpdate(s.pcs, e.ok, Holding, s.i, Probe);
    SumUpdate(s.pcs, e.ok, Live, s.i, Probe);
    SumUpdate(s.pcs, e.ok, Counted, s.i, Probe);
  }

  lemma InvMain(e: Input, s: State, s': State)
    requires Inv(e, s) && MainStep(e, s) == Some(s')
    ensures Inv(e, s')
  {
    if s.main.Spawn? { InvSpawn(e, s, s'); }
  }

  /** What one worker step does to the sums. */
  lemma WorkerSums(e: Input, s: State, j: nat, s': State)
    requires Valid(e) && |s.pcs| == |e.accounts| && j < |s.pcs| && WorkerStep(e, s, j) == Some(s')
    ensures s'.pcs == s.pcs[j := s'.pcs[j]]
    ensures Sum(s'.pcs, e.ok, Holding) == Sum(s.pcs, e.ok, Holding) - Holding(s.pcs[j], e.ok[j]) + Holding(s'.pcs[j], e.ok[j])
    ensures Sum(s'.pcs, e.ok, Live) == Sum(s.pcs, e.ok, Live) - Live(s.pcs[j], e.ok[j]) + Live(s'.pcs[j], e.ok[j])
    ensures Sum(s'.pcs, e.ok, Counted) == Sum(s.pcs, e.ok, Counted) - Counted(s.pcs[j], e.ok[j]) + Counted(s'.pcs[j], e.ok[j])
    ensures Sum(s'.pcs, e.ok, Remaining) == Sum(s.pcs, e.ok, Remaining) - Remaining(s.pcs[j], e.ok[j]) + Remaining(s'.pcs[j], e.ok[j])
  {
    var pc := s'.pcs[j];
    SumUpdate(s.pcs, e.ok, Holding, j, pc);
    SumUpdate(s.pcs, e.ok, Live, j, pc);
    SumUpdate(s.pcs, e.ok, Counted, j, pc);
    SumUpdate(s.pcs, e.ok, Remaining, j, pc);
  }

  lemma ExclusionWorker(e: Input, s: State, j: nat, s': State)
    requires Spawned(e, s) && Exclusion(e, s) && j < |s.pcs| && WorkerStep(e, s, j) == Some(s')
    ensures Spawned(e, s') && Exclusion(e, s')
  {
    assert s'.pcs == s.pcs[j := s'.pcs[j]];
  }

  lemma CountsWorker(e: Input, s: State, j: nat, s': State)
    requires Inv(e, s) && j < |s.pcs| && WorkerStep(e, s, j) == Some(s')
    ensures |s'.pcs| == |e.ok| && Counts(e, s')
  {
    WorkerDeltas(e, s, j, s');
    WorkerSums(e, s, j, s');
    SumAtLeast(s.pcs, e.ok, Live, j);
  }

  /** The shared counters move exactly as the worker's own state does. */
  lemma WorkerDeltas(e: Input, s: State, j: nat, s': State)
    requires Spawned(e, s) && Exclusion(e, s) && j < |s.pcs| && WorkerStep(e, s, j) == Some(s')
    ensures |s'.pcs| == |e.ok| && s'.main == s.main && Live(s.pcs[j], e.ok[j]) == 1
    ensures s'.sem - s.sem == Holding(s'.pcs[j], e.ok[j]) - Holding(s.pcs[j], e.ok[j])
    ensures s'.wg - s.wg == Live(s'.pcs[j], e.ok[j]) - Live(s.pcs[j], e.ok[j])
    ensures s'.connected - s.connected == Counted(s'.pcs[j], e.ok[j]) - Counted(s.pcs[j], e.ok[j])
    ensures s'.sem <= s.sem
  {
  }

  lemma InvStep(e: Input, s: State, s': State)
    requires Inv(e, s) && Step(e, s, s')
    ensures Inv(e, s')
  {
    if MainStep(e, s) == Some(s') {
      InvMain(e, s, s');
    } else {
      var j: nat :| j < |s.pcs| && WorkerStep(e, s, j) == Some(s');
      ExclusionWorker(e, s, j, s');
      CountsWorker(e, s, j, s');
    }
  }

  // ---- termination ----

  function Remaining(pc: Pc, ok: bool): int {
    match pc
    case Unborn => 0 case Probe => 7 case Lock => 6 case Read => 5 case Write(_) => 4
    case Unlock => 3 case Release => 2 case Finish => 1 case Gone => 0
  }

  function MainRemaining(m: MainPc): int {
    match m case Next => 3 case Send => 2 case Spawn => 1 case Waiting => 2 case Returned(_) => 0
  }

  function Measure(e: Input, s: State): int
    requires |s.pcs| == |e.ok|
  {
    12 * (|e.accounts| - s.i) + MainRemaining(s.main) + Sum(s.pcs, e.ok, Remaining)
  }

  lemma MeasureWorker(e: Input, s: State, j: nat, s': State)
    requires Valid(e) && |s.pcs| == |e.accounts| && j < |s.pcs| && WorkerStep(e, s, j) == Some(s')
    ensures Measure(e, s') < Measure(e, s)
  {
    WorkerSums(e, s, j, s');
  }

  lemma MeasureMain(e: Input, s: State, s': State)
    requires Inv(e, s) && MainStep(e, s) == Some(s')
    ensures |s'.pcs| == |e.ok| && Measure(e, s') < Measure(e, s)
  {
    if s.main.Spawn? { SumUpdate(s.pcs, e.ok, Remaining, s.i, Probe); }
  }

  lemma MeasureDecreases(e: Input, s: State, s': State)
    requires Inv(e, s) && Step(e, s, s')
    ensures Inv(e, s') && 0 <= Measure(e, s') < Measure(e, s)
  {
    InvStep(e, s, s');
    SumNonNegative(s'.pcs, e.ok, Remaining);
    if MainStep(e, s) == Some(s') {
      MeasureMain(e, s, s');
    } else {
      var j: nat :| j < |s.pcs| && WorkerStep(e, s, j) == Some(s');
      MeasureWorker(e, s, j, s');
    }
  }

  ghost predicate Enabled(e: Input, s: State)
    requires Valid(e) && |s.pcs| == |e.accounts|
  {
    MainStep(e, s).Some? || exists j: nat | j < |s.pcs| :: WorkerStep(e, s, j).Some?
  }

  /** No reachable state is stuck before the count is returned. */
  lemma NoDeadlock(e: Input, s: State)
    requires Inv(e, s) && !s.main.Returned?
    ensures Enabled(e, s)
  {
    if j: nat :| j < |s.pcs| && !s.pcs[j].Unborn? && !s.pcs[j].Gone? {
      if s.pcs[j].Lock? && s.mu.Some? {
        assert WorkerStep(e, s, s.mu.value).Some?;
      } else {
        SumAtLeast(s.pcs, e.ok, Holding, j);
        SumAtLeast(s.pcs, e.ok, Live, j);
        assert WorkerStep(e, s, j).Some?;
      }
    } else {
      SumZero(s.pcs, e.ok, Holding);
      SumZero(s.pcs, e.ok, Live);
      assert MainStep(e, s).Some?;
    }
  }

  // ---- all interleavings ----

  /** A run: any interleaving of the steps, from the start. */
  ghost predicate Run(e: Input, run: seq<State>) {
    && Valid(e) && run != [] && run[0] == Init(e)
    && (forall k | 0 <= k < |run| :: |run[k].pcs| == |e.accounts|)
    && (forall k | 0 <= k < |run| - 1 :: Step(e, run[k], run[k + 1]))
  }

  lemma {:induction false} InvariantAt(e: Input, run: seq<State>, k: nat)
    requires Run(e, run) && k < |run|
    ensures Inv(e, run[k]) && k + Measure(e, run[k]) <= Measure(e, Init(e))
  {
    if k == 0 {
      InvInit(e);
    } else {
      InvariantAt(e, run, k - 1);
      assert Step(e, run[k - 1], run[k - 1 + 1]);
      MeasureDecreases(e, run[k - 1], run[k]);
    }
  }

  lemma RunInvariant(e: Input, run: seq<State>)
    requires Run(e, run)
    ensures forall k | 0 <= k < |run| :: Inv(e, run[k])
    ensures |run| - 1 + Measure(e, run[|run| - 1]) <= Measure(e, Init(e))
  {
    forall k | 0 <= k < |run| ensures Inv(e, run[k]) { InvariantAt(e, run, k); }
    InvariantAt(e, run, |run| - 1);
  }

  /** The successful probes of accounts other than the management account. */
  function Successes(accounts: seq<string>, customer: string, ok: seq<bool>): nat
    requires |accounts| == |ok|
  {
    if accounts == [] then 0
    else (if accounts[0] != customer && ok[0] then 1 else 0) + Successes(accounts[1..], customer, ok[1..])
  }

  lemma {:induction false} CountedAll(accounts: seq<string>, customer: string, ok: seq<bool>, pcs: seq<Pc>)
    requires |accounts| == |ok| == |pcs|
    requires forall j | 0 <= j < |pcs| :: pcs[j] == (if accounts[j] == customer then Unborn else Gone)
    ensures Sum(pcs, ok, Counted) == Successes(accounts, customer, ok)
  {
    if pcs != [] { CountedAll(accounts[1..], customer, ok[1..], pcs[1..]); }
  }

  /** EVERY INTERLEAVING: at most 10 probes are ever in flight, the run is finite with a bound
      known in advance, it cannot stop before returning, and what it returns is 1 plus the number
      of successful member probes, although the increment is not atomic. */
  lemma CountConnectedMembers(e: Input, run: seq<State>)
    requires Run(e, run)
    ensures forall k | 0 <= k < |run| :: Sum(run[k].pcs, e.ok, InFlight) <= 10
    ensures |run| <= 12 * |e.accounts| + 4
    ensures
      var last := run[|run| - 1];
      if last.main.Returned? then last.main.connected == 1 + Successes(e.accounts, e.customer, e.ok)
      else Enabled(e, last)
  {
    RunInvariant(e, run);
    forall k | 0 <= k < |run| ensures Sum(run[k].pcs, e.ok, InFlight) <= MAX_MEMBER_ACCOUNT_FANOUT {
      SumBelow(run[k].pcs, e.ok, InFlight, Holding);
    }
    SumZero(Init(e).pcs, e.ok, Remaining);
    var last := run[|run| - 1];
    SumNonNegative(last.pcs, e.ok, Remaining);
    if last.main.Returned? {
      forall j | 0 <= j < |last.pcs| ensures last.pcs[j] == (if e.accounts[j] == e.customer then Unborn else Gone) {
        SumAtLeast(last.pcs, e.ok, Live, j);
      }
      CountedAll(e.accounts, e.customer, e.ok, last.pcs);
    } else {
      NoDeadlock(e, last);
    }
  }

  // ---- the status shown to the browser ----

  datatype OnboardingStatus = OnboardingStatus(
    managementRoleConnected: bool, scopeVerified: bool, noOrganization: bool,
    totalAccounts: int, connectedAccounts: int)

  /** CheckOnboardingStatus once the management role was assumed and the organization enumerated;
      connected is what countConnectedMembers returned. */
  function Status(scope: OrganizationScope, connected: int): OnboardingStatus {
    if scope.noOrganization then OnboardingStatus(true, false, true, 1, 1)
    else OnboardingStatus(true, true, false, |scope.accounts|, connected)
  }

  lemma {:induction false} SuccessesBound(accounts: seq<string>, customer: string, ok: seq<bool>)
    requires |accounts| == |ok| && NoDuplicates(accounts)
    ensures
      var others := |accounts| - (if customer in accounts then 1 else 0);
      && Successes(accounts, customer, ok) <= others
      && (Successes(accounts, customer, ok) == others <==>
            forall j | 0 <= j < |accounts| && accounts[j] != customer :: ok[j])
  {
    if accounts != [] {
      var rest, okRest := accounts[1..], ok[1..];
      assert forall j | 0 <= j < |rest| :: rest[j] == accounts[j + 1] && okRest[j] == ok[j + 1];
      SuccessesBound(rest, customer, okRest);
      assert customer in accounts <==> customer == accounts[0] || customer in rest;
      assert customer == accounts[0] ==> customer !in rest;
      assert (forall j | 0 <= j < |accounts| && accounts[j] != customer :: ok[j]) <==>
        (accounts[0] != customer ==> ok[0]) && (forall j | 0 <= j < |rest| && rest[j] != customer :: okRest[j]) by {
        assert forall j | 1 <= j < |accounts| :: accounts[j] == rest[j - 1] && ok[j] == okRest[j - 1];
      }
    }
  }

  /** With what enumerateOrganization guarantees, the counter never exceeds the total and reaches it
      exactly when every member account could be entered. */
  lemma StatusIsHonest(d: Description, pages: seq<Page>, e: Input, run: seq<State>)
    requires FiniteListing(pages) && Enumerated(d, pages, e.customer).Some? && !d.NotInUse?
    requires e.accounts == Enumerated(d, pages, e.customer).value.accounts
    requires Run(e, run) && run[|run| - 1].main.Returned?
    ensures
      var status := Status(Enumerated(d, pages, e.customer).value, run[|run| - 1].main.connected);
      && status.managementRoleConnected && status.scopeVerified && !status.noOrganization
      && status.totalAccounts == |e.accounts| && 1 <= status.connectedAccounts <= status.totalAccounts
      && (status.connectedAccounts == status.totalAccounts <==>
            forall j | 0 <= j < |e.accounts| && e.accounts[j] != e.customer :: e.ok[j])
  {
    EnumerationGuarantees(d, pages, e.customer);
    CountConnectedMembers(e, run);
    SuccessesBound(e.accounts, e.customer, e.ok);
  }

  /** How assuming the management role ends. */
  datatype Assumption = Assumed | NotConnected | AssumeFailed

  /** CheckOnboardingStatus: None is an error. An account outside any organization is complete by itself, but
      its scope is not verified; an account without the role yet shows nothing. */
  method CheckOnboardingStatus(role: Assumption, d: Description, pages: seq<Page>, customer: string, connected: int)
    returns (r: Option<OnboardingStatus>)
    requires FiniteListing(pages)
    ensures r.None? <==> role.AssumeFailed? || (role.Assumed? && Enumerated(d, pages, customer).None?)
    ensures role.NotConnected? ==> r == Some(OnboardingStatus(false, false, false, 0, 0))
    ensures role.Assumed? && d.NotInUse? ==> r == Some(OnboardingStatus(true, false, true, 1, 1))
    ensures role.Assumed? && r.Some? && !d.NotInUse? ==>
      r == Some(OnboardingStatus(true, true, false, |Enumerated(d, pages, customer).value.accounts|, connected))
  {
    match role {
      case AssumeFailed => return None;
      case NotConnected => return Some(OnboardingStatus(false, false, false, 0, 0));
      case Assumed =>
        var scope := EnumerateOrganization(d, pages, customer);
        if scope.None? { return None; }
        EnumerationGuarantees(d, pages, customer);
        r := Some(Status(scope.value, connected));
    }
  }
}
