/** deploy/supabase-data-relay.py: every accepted connection runs handle in a thread of its own over
    a bounded semaphore and a counter behind a lock. I/O may end in any outcome at any point. */
module Relay {
  import opened Wrappers

  const MAX_CONNECTIONS := 8
  const MAX_TOTAL_CONNECTIONS := 500

  /** Where a handler is. left is the number of addresses still to try; acquired is the source's
      flag of that name. Leaked: the thread ended inside finally without releasing its permit.
      Overrun: release() was called on a full bounded semaphore. */
  datatype Pc =
    | Start
    | WantLock
    | Check
    | Add(seen: int)
    | Unlock(admitted: bool)
    | ReadHost
    | Resolve
    | Connect(left: nat)
    | Copying(left: nat)
    | CloseFailed(left: nat)
    | CloseUpstream(acquired: bool)
    | CloseConn(acquired: bool)
    | Release
    | Done
    | Leaked
    | Overrun

  datatype Handler = Handler(pc: Pc, admitted: bool)

  datatype State = State(handlers: seq<Handler>, free: int, total: int, lock: Option<nat>)

  /** How an operation outside the model ends. */
  datatype Outcome = Ok(addresses: nat) | OsError | OtherError

  const INIT := State([], MAX_CONNECTIONS, 0, None)

  function At(s: State, j: nat, pc: Pc): State
    requires j < |s.handlers|
  {
    s.(handlers := s.handlers[j := s.handlers[j].(pc := pc)])
  }

  /** One step of handler j; None when it waits for the lock or has ended. */
  function HandlerStep(s: State, j: nat, o: Outcome): Option<State>
    requires j < |s.handlers|
  {
    match s.handlers[j].pc
    case Start =>
      if s.free > 0 then Some(At(s, j, WantLock).(free := s.free - 1)) else Some(At(s, j, CloseConn(false)))
    case WantLock =>
      if s.lock.None? then Some(At(s, j, Check).(lock := Some(j))) else None
    case Check =>
      Some(At(s, j, if s.total >= MAX_TOTAL_CONNECTIONS then Unlock(false) else Add(s.total)))
    case Add(seen) =>
      Some(s.(handlers := s.handlers[j := Handler(Unlock(true), true)], total := seen + 1))
    case Unlock(admitted) =>
      Some(At(s, j, if admitted then ReadHost else CloseConn(true)).(lock := None))
    case ReadHost =>
      Some(At(s, j, if o.Ok? then Resolve else CloseConn(true)))
    case Resolve =>
      Some(At(s, j, if o.Ok? && o.addresses > 0 then Connect(o.addresses) else CloseConn(true)))
    case Connect(left) =>
      if left == 0 then Some(At(s, j, CloseConn(true)))
      else
        Some(At(s, j, match o
                      case Ok(_) => Copying(left - 1)
                      case OsError => CloseFailed(left - 1)
                      case OtherError => CloseUpstream(true)))
    case Copying(left) =>
      Some(At(s, j, if o.OsError? then CloseFailed(left) else CloseUpstream(true)))
    case CloseFailed(left) =>
      Some(At(s, j, if o.Ok? then Connect(left) else CloseUpstream(true)))
    case CloseUpstream(acquired) =>
      Some(At(s, j, if o.Ok? then CloseConn(acquired) else if acquired then Leaked else Done))
    case CloseConn(acquired) =>
      Some(At(s, j, if !acquired then Done else if o.Ok? then Release else Leaked))
    case Release =>
      if s.free < MAX_CONNECTIONS then Some(At(s, j, Done).(free := s.free + 1)) else Some(At(s, j, Overrun))
    case _ => None
  }

  /** A new connection is accepted, or a handler takes a step that ends in some outcome. */
  datatype Action = Accept | Act(handler: nat, outcome: Outcome)

  function After(s: State, a: Action): Option<State> {
    match a
    case Accept => Some(s.(handlers := s.handlers + [Handler(Start, false)]))
    case Act(j, o) => if j < |s.handlers| then HandlerStep(s, j, o) else None
  }

  /** The state after a run: any interleaving of actions, each of them possible when it happens. */
  function Exec(acts: seq<Action>): Option<State> {
    if acts == [] then Some(INIT)
    else
      var s := Exec(acts[..|acts| - 1]);
      if s.None? then None else After(s.value, acts[|acts| - 1])
  }

  // ---- counting handlers ----

  function Count(hs: seq<Handler>, f: Handler -> bool): nat {
    if hs == [] then 0 else (if f(hs[0]) then 1 else 0) + Count(hs[1..], f)
  }

  lemma {:induction false} CountUpdate(hs: seq<Handler>, f: Handler -> bool, j: nat, h: Handler)
    requires j < |hs|
    ensures Count(hs[j := h], f) == Count(hs, f) - (if f(hs[j]) then 1 else 0) + (if f(h) then 1 else 0)
  {
    if j > 0 {
      CountUpdate(hs[1..], f, j - 1, h);
      assert hs[j := h][1..] == hs[1..][j - 1 := h];
    } else {
      assert hs[j := h][1..] == hs[1..];
    }
  }

  lemma {:induction false} CountSnoc(hs: seq<Handler>, f: Handler -> bool, h: Handler)
    ensures Count(hs + [h], f) == Count(hs, f) + (if f(h) then 1 else 0)
  {
    if hs == [] {
      assert hs + [h] == [h] && [h][1..] == [];
    } else {
      CountSnoc(hs[1..], f, h);
      assert (hs + [h])[1..] == hs[1..] + [h];
    }
  }

  lemma {:induction false} CountPositive(hs: seq<Handler>, f: Handler -> bool, j: nat)
    requires j < |hs| && f(hs[j])
    ensures Count(hs, f) > 0
  {
    if j > 0 { CountPositive(hs[1..], f, j - 1); }
  }

  lemma {:induction false} CountSame(hs: seq<Handler>, f: Handler -> bool, g: Handler -> bool)
    requires forall j | 0 <= j < |hs| :: f(hs[j]) == g(hs[j])
    ensures Count(hs, f) == Count(hs, g)
  {
    if hs != [] { CountSame(hs[1..], f, g); }
  }

  // ---- the inductive invariant ----

  /** Acquired a permit and has not given it back. */
  predicate Holds(h: Handler) {
    match h.pc
    case Start => false
    case CloseUpstream(acquired) => acquired
    case CloseConn(acquired) => acquired
    case Done => false
    case Overrun => false
    case _ => true
  }

  predicate Admitted(h: Handler) { h.admitted }

  predicate HasLeaked(h: Handler) { h.pc.Leaked? }

  predicate InLock(pc: Pc) { pc.Check? || pc.Add? || pc.Unlock? }

  /** Being served: past admission, before the permit is given back. */
  predicate Served(h: Handler) {
    h.pc.ReadHost? || h.pc.Resolve? || h.pc.Connect? || h.pc.Copying? || h.pc.CloseFailed?
  }

  ghost predicate Permits(s: State) {
    && s.free >= 0 && s.free + Count(s.handlers, Holds) == MAX_CONNECTIONS
    && (forall j | 0 <= j < |s.handlers| :: !s.handlers[j].pc.Overrun?)
  }

  ghost predicate Cap(s: State) {
    s.total == Count(s.handlers, Admitted) && s.total <= MAX_TOTAL_CONNECTIONS
  }

  /** Whoever is inside `with total_lock` holds the lock, so the total read there is current. */
  ghost predicate Locking(s: State) {
    && (s.lock.Some? ==> s.lock.value < |s.handlers| && InLock(s.handlers[s.lock.value].pc))
    && (forall j | 0 <= j < |s.handlers| && InLock(s.handlers[j].pc) :: s.lock == Some(j))
    && (forall j | 0 <= j < |s.handlers| && s.handlers[j].pc.Add? ::
          s.handlers[j].pc.seen == s.total < MAX_TOTAL_CONNECTIONS)
  }

  /** A handler is admitted at Add and at no other step. */
  predicate Consistent(h: Handler) {
    && (h.pc.Start? || h.pc.WantLock? || h.pc.Check? || h.pc.Add? ==> !h.admitted)
    && (Served(h) || h.pc == Unlock(true) ==> h.admitted)
  }

  ghost predicate Admission(s: State) {
    forall j | 0 <= j < |s.handlers| :: Consistent(s.handlers[j])
  }

  ghost predicate Inv(s: State) { Permits(s) && Cap(s) && Locking(s) && Admission(s) }

  function Held(h: Handler): int { if Holds(h) then 1 else 0 }

  /** What one step does to the permits. */
  lemma PermitMoves(s: State, j: nat, o: Outcome, s': State)
    requires j < |s.handlers| && HandlerStep(s, j, o) == Some(s') && s.free >= 0
    ensures s'.handlers == s.handlers[j := s'.handlers[j]] && s'.free >= 0
    ensures s'.handlers[j].pc.Overrun? <==> s.handlers[j].pc.Release? && s.free >= MAX_CONNECTIONS
    ensures !s'.handlers[j].pc.Overrun? ==> s'.free + Held(s'.handlers[j]) == s.free + Held(s.handlers[j])
  {
  }

  lemma PermitsHandler(s: State, j: nat, o: Outcome, s': State)
    requires Permits(s) && j < |s.handlers| && HandlerStep(s, j, o) == Some(s')
    ensures Permits(s')
  {
    PermitMoves(s, j, o, s');
    CountUpdate(s.handlers, Holds, j, s'.handlers[j]);
    if Holds(s.handlers[j]) { CountPositive(s.handlers, Holds, j); }
  }

  lemma CapHandler(s: State, j: nat, o: Outcome, s': State)
    requires Cap(s) && Locking(s) && Admission(s) && j < |s.handlers| && HandlerStep(s, j, o) == Some(s')
    ensures Cap(s')
  {
    var h := s'.handlers[j];
    assert s'.handlers == s.handlers[j := h];
    assert Consistent(s.handlers[j]);
    CountUpdate(s.handlers, Admitted, j, h);
  }

  lemma LockingHandler(s: State, j: nat, o: Outcome, s': State)
    requires Locking(s) && j < |s.handlers| && HandlerStep(s, j, o) == Some(s')
    ensures Locking(s')
  {
    assert s'.handlers == s.handlers[j := s'.handlers[j]];
  }

  lemma AdmissionHandler(s: State, j: nat, o: Outcome, s': State)
    requires Admission(s) && j < |s.handlers| && HandlerStep(s, j, o) == Some(s')
    ensures Admission(s')
  {
    assert s'.handlers == s.handlers[j := s'.handlers[j]];
    assert Consistent(s.handlers[j]);
  }

  lemma InvStep(s: State, a: Action, s': State)
    requires Inv(s) && After(s, a) == Some(s')
    ensures Inv(s')
  {
    match a {
      case Accept =>
        var conn := Handler(Start, false);
        CountSnoc(s.handlers, Holds, conn);
        CountSnoc(s.handlers, Admitted, conn);
      case Act(j, o) =>
        PermitsHandler(s, j, o, s');
        CapHandler(s, j, o, s');
        LockingHandler(s, j, o, s');
        AdmissionHandler(s, j, o, s');
    }
  }

  lemma {:induction false} RunInvariant(acts: seq<Action>)
    requires Exec(acts).Some?
    ensures Inv(Exec(acts).value)
  {
    if acts != [] {
      var n := |acts| - 1;
      RunInvariant(acts[..n]);
      InvStep(Exec(acts[..n]).value, acts[n], Exec(acts).value);
    }
  }

  predicate Ended(h: Handler) { h.pc.Done? || h.pc.Leaked? }

  ghost predicate AllEnded(s: State) {
    forall j | 0 <= j < |s.handlers| :: Ended(s.handlers[j])
  }

  /** EVERY INTERLEAVING: the free permits and the permits held always make 8, so at most 8
      handlers hold one; release is never called on a full semaphore; at most 500 handlers are ever
      admitted and only admitted ones are served. */
  lemma RelayBounds(acts: seq<Action>)
    requires Exec(acts).Some?
    ensures
      var s := Exec(acts).value;
      && 0 <= s.free <= 8 && s.free + Count(s.handlers, Holds) == 8
      && Count(s.handlers, Admitted) == s.total <= 500
      && forall j | 0 <= j < |s.handlers| :: !s.handlers[j].pc.Overrun? && (Served(s.handlers[j]) ==> s.handlers[j].admitted)
  {
    RunInvariant(acts);
    var s := Exec(acts).value;
    forall j | 0 <= j < |s.handlers| ensures Consistent(s.handlers[j]) {}
  }

  // ---- who is admitted ----

  /** Handler j finds no permit free, or 500 admitted before it. */
  predicate RefusedAt(s: State, a: Action, j: nat) {
    && a.Act? && a.handler == j < |s.handlers|
    && ((s.handlers[j].pc.Start? && s.free == 0) || (s.handlers[j].pc.Check? && s.total >= 500))
  }

  /** That has happened to it in a run. */
  predicate Refused(acts: seq<Action>, j: nat)
    requires Exec(acts).Some?
  {
    acts != [] && (Refused(acts[..|acts| - 1], j) || RefusedAt(Exec(acts[..|acts| - 1]).value, acts[|acts| - 1], j))
  }

  /** On its way out without having been admitted. */
  predicate Turned(h: Handler) {
    !h.admitted && (h.pc == Unlock(false) || h.pc.CloseConn? || h.pc.Release? || h.pc.Done? || h.pc.Leaked?)
  }

  /** Closing an upstream connection takes having been admitted. */
  predicate Upstream(h: Handler) { h.pc.CloseUpstream? ==> h.admitted }

  lemma TurnedStep(s: State, j: nat, o: Outcome, s': State)
    requires Inv(s) && j < |s.handlers| && HandlerStep(s, j, o) == Some(s') && Upstream(s.handlers[j])
    ensures Turned(s'.handlers[j]) <==> Turned(s.handlers[j]) || RefusedAt(s, Act(j, o), j)
    ensures Upstream(s'.handlers[j])
  {
    assert Consistent(s.handlers[j]);
    PermitsHandler(s, j, o, s');
    assert s'.handlers == s.handlers[j := s'.handlers[j]];
  }

  lemma {:induction false} TurnedIffRefused(acts: seq<Action>, j: nat)
    requires Exec(acts).Some? && j < |Exec(acts).value.handlers|
    ensures Turned(Exec(acts).value.handlers[j]) <==> Refused(acts, j)
    ensures Upstream(Exec(acts).value.handlers[j])
  {
    var n := |acts| - 1;
    var s, s' := Exec(acts[..n]).value, Exec(acts).value;
    RunInvariant(acts[..n]);
    if j < |s.handlers| {
      TurnedIffRefused(acts[..n], j);
      if acts[n].Act? && acts[n].handler == j { TurnedStep(s, j, acts[n].outcome, s'); }
      else { OthersStay(s, acts[n], j, s'); }
    } else {
      NeverRefused(acts[..n], j);
    }
  }

  lemma OthersStay(s: State, a: Action, j: nat, s': State)
    requires After(s, a) == Some(s') && j < |s.handlers| && !(a.Act? && a.handler == j)
    ensures j < |s'.handlers| && s'.handlers[j] == s.handlers[j]
  {
  }

  /** A handler that is not there yet has not been refused. */
  lemma {:induction false} NeverRefused(acts: seq<Action>, j: nat)
    requires Exec(acts).Some? && j >= |Exec(acts).value.handlers|
    ensures !Refused(acts, j)
  {
    if acts != [] {
      HandlersStay(Exec(acts[..|acts| - 1]).value, acts[|acts| - 1], Exec(acts).value);
      NeverRefused(acts[..|acts| - 1], j);
    }
  }

  lemma HandlersStay(s: State, a: Action, s': State)
    requires After(s, a) == Some(s')
    ensures |s.handlers| <= |s'.handlers|
  {
  }

  /** ADMITTED: a connection that has ended was admitted if and only if it found a permit free and fewer than
      500 admitted before it. */
  lemma AdmittedIff(acts: seq<Action>, j: nat)
    requires Exec(acts).Some? && j < |Exec(acts).value.handlers| && Ended(Exec(acts).value.handlers[j])
    ensures Exec(acts).value.handlers[j].admitted <==> !Refused(acts, j)
  {
    TurnedIffRefused(acts, j);
  }

  // ---- which addresses are tried ----

  /** What a handler has done: the addresses its host resolved to, those it tried, and how its last operation ended. */
  datatype Tries = Tries(resolved: nat, tried: nat, last: Option<Outcome>)

  function NextTries(t: Tries, pc: Pc, o: Outcome): Tries {
    Tries(if pc.Resolve? && o.Ok? then o.addresses else t.resolved,
          if pc.Connect? && pc.left > 0 then t.tried + 1 else t.tried, Some(o))
  }

  function TriesAfter(s: State, a: Action, j: nat, t: Tries): Tries {
    if a.Act? && a.handler == j < |s.handlers| then NextTries(t, s.handlers[j].pc, a.outcome) else t
  }

  function TriesOf(acts: seq<Action>, j: nat): Tries
    requires Exec(acts).Some?
  {
    if acts == [] then Tries(0, 0, None)
    else
      var n := |acts| - 1;
      TriesAfter(Exec(acts[..n]).value, acts[n], j, TriesOf(acts[..n], j))
  }

  /** Each address is tried once, in turn, until one connects; the next one is tried only after an OSError. */
  predicate InTurn(pc: Pc, t: Tries) {
    match pc
    case Connect(left) => t.tried + left == t.resolved
    case Copying(left) => t.tried + left == t.resolved && t.tried > 0 && t.last.Some? && t.last.value.Ok?
    case CloseFailed(left) => t.tried + left == t.resolved && t.tried > 0 && t.last == Some(OsError)
    case Start => t == Tries(0, 0, None)
    case _ => pc.WantLock? || pc.Check? || pc.Add? || pc.Unlock? || pc.ReadHost? || pc.Resolve? ==> t.resolved == t.tried == 0
  }

  lemma InTurnStep(s: State, j: nat, o: Outcome, s': State, t: Tries)
    requires j < |s.handlers| && HandlerStep(s, j, o) == Some(s') && InTurn(s.handlers[j].pc, t)
    ensures InTurn(s'.handlers[j].pc, NextTries(t, s.handlers[j].pc, o))
  {
  }

  lemma {:induction false} NoTriesYet(acts: seq<Action>, j: nat)
    requires Exec(acts).Some? && j >= |Exec(acts).value.handlers|
    ensures TriesOf(acts, j) == Tries(0, 0, None)
  {
    if acts != [] {
      HandlersStay(Exec(acts[..|acts| - 1]).value, acts[|acts| - 1], Exec(acts).value);
      NoTriesYet(acts[..|acts| - 1], j);
    }
  }

  /** IN TURN: over every run. */
  lemma {:induction false} AddressesInTurn(acts: seq<Action>, j: nat)
    requires Exec(acts).Some? && j < |Exec(acts).value.handlers|
    ensures InTurn(Exec(acts).value.handlers[j].pc, TriesOf(acts, j))
  {
    var n := |acts| - 1;
    if j < |Exec(acts[..n]).value.handlers| { AddressesInTurn(acts[..n], j); } else { NoTriesYet(acts[..n], j); }
    TriesNext(Exec(acts[..n]).value, acts[n], Exec(acts).value, j, TriesOf(acts[..n], j));
  }

  lemma TriesNext(s: State, a: Action, s': State, j: nat, t: Tries)
    requires After(s, a) == Some(s') && j < |s'.handlers|
    requires if j < |s.handlers| then InTurn(s.handlers[j].pc, t) else t == Tries(0, 0, None)
    ensures InTurn(s'.handlers[j].pc, TriesAfter(s, a, j, t))
  {
    if j < |s.handlers| {
      if a.Act? && a.handler == j { InTurnStep(s, j, a.outcome, s', t); } else { OthersStay(s, a, j, s'); }
    } else {
      NewStarts(s, a, s', j);
    }
  }

  lemma NewStarts(s: State, a: Action, s': State, j: nat)
    requires After(s, a) == Some(s') && |s.handlers| <= j < |s'.handlers|
    ensures s'.handlers[j].pc.Start? && !(a.Act? && a.handler == j)
  {
  }

  // ---- which permits come back ----

  /** A close() inside finally raises before the permit is released. */
  predicate Raises(s: State, a: Action) {
    && a.Act? && a.handler < |s.handlers| && !a.outcome.Ok?
    && (s.handlers[a.handler].pc == CloseUpstream(true) || s.handlers[a.handler].pc == CloseConn(true))
  }

  /** How often that happened in a run. */
  function RaisedIn(acts: seq<Action>): nat
    requires Exec(acts).Some?
  {
    if acts == [] then 0
    else
      var n := |acts| - 1;
      RaisedIn(acts[..n]) + if Raises(Exec(acts[..n]).value, acts[n]) then 1 else 0
  }

  lemma LeakedStep(s: State, a: Action, s': State)
    requires After(s, a) == Some(s')
    ensures Count(s'.handlers, HasLeaked) == Count(s.handlers, HasLeaked) + if Raises(s, a) then 1 else 0
  {
    match a {
      case Accept => CountSnoc(s.handlers, HasLeaked, Handler(Start, false));
      case Act(j, o) =>
        assert s'.handlers == s.handlers[j := s'.handlers[j]];
        CountUpdate(s.handlers, HasLeaked, j, s'.handlers[j]);
    }
  }

  lemma {:induction false} LeakedIsRaised(acts: seq<Action>)
    requires Exec(acts).Some?
    ensures Count(Exec(acts).value.handlers, HasLeaked) == RaisedIn(acts)
  {
    if acts != [] {
      var n := |acts| - 1;
      LeakedIsRaised(acts[..n]);
      LeakedStep(Exec(acts[..n]).value, acts[n], Exec(acts).value);
    }
  }

  /** EXACT: once every handler has ended, the permits are all back but one for each close() that
      raised inside finally; so all of them come back if and only if no close() there raised. */
  lemma PermitsBackIffNoneRaised(acts: seq<Action>)
    requires Exec(acts).Some? && AllEnded(Exec(acts).value)
    ensures Exec(acts).value.free == MAX_CONNECTIONS - RaisedIn(acts)
    ensures Exec(acts).value.free == MAX_CONNECTIONS <==> RaisedIn(acts) == 0
  {
    RunInvariant(acts);
    LeakedIsRaised(acts);
    CountSame(Exec(acts).value.handlers, Holds, HasLeaked);
  }

  lemma ExecSnoc(acts: seq<Action>, a: Action)
    requires Exec(acts).Some?
    ensures Exec(acts + [a]) == After(Exec(acts).value, a)
  {
    assert (acts + [a])[..|acts|] == acts;
  }

  /** One handler in state pc. */
  function One(pc: Pc, admitted: bool, free: int, total: int, lock: Option<nat>): State {
    State([Handler(pc, admitted)], free, total, lock)
  }

  lemma OneAct(acts: seq<Action>, s: State, o: Outcome, s': State)
    requires Exec(acts) == Some(s) && |s.handlers| == 1 && |s'.handlers| == 1 && HandlerStep(s, 0, o).Some?
    requires
      var r := HandlerStep(s, 0, o).value;
      r.handlers[0] == s'.handlers[0] && r.free == s'.free && r.total == s'.total && r.lock == s'.lock
    ensures Exec(acts + [Act(0, o)]) == Some(s')
  {
    ExecSnoc(acts, Act(0, o));
    assert HandlerStep(s, 0, o).value.handlers == s'.handlers;
  }

  /** The first connection is admitted. */
  lemma AdmitOne() returns (acts: seq<Action>)
    ensures Exec(acts) == Some(One(ReadHost, true, 7, 1, None))
  {
    acts := [Accept];
    ExecSnoc([], Accept);
    assert [] + [Accept] == acts && INIT.handlers + [Handler(Start, false)] == [Handler(Start, false)];
    OneAct(acts, One(Start, false, 8, 0, None), Ok(0), One(WantLock, false, 7, 0, None));
    acts := acts + [Act(0, Ok(0))];
    OneAct(acts, One(WantLock, false, 7, 0, None), Ok(0), One(Check, false, 7, 0, Some(0)));
    acts := acts + [Act(0, Ok(0))];
    OneAct(acts, One(Check, false, 7, 0, Some(0)), Ok(0), One(Add(0), false, 7, 0, Some(0)));
    acts := acts + [Act(0, Ok(0))];
    OneAct(acts, One(Add(0), false, 7, 0, Some(0)), Ok(0), One(Unlock(true), true, 7, 1, Some(0)));
    acts := acts + [Act(0, Ok(0))];
    OneAct(acts, One(Unlock(true), true, 7, 1, Some(0)), Ok(0), One(ReadHost, true, 7, 1, None));
    acts := acts + [Act(0, Ok(0))];
  }

  /** "All permits come back on every exception path" is false: here the only connection fails while
      its host line is read, closing it raises, and the run ends with 7 permits for ever. */
  lemma LeakedPermitIsLost() returns (acts: seq<Action>)
    ensures Exec(acts).Some? && AllEnded(Exec(acts).value) && Exec(acts).value.free == 7
  {
    acts := AdmitOne();
    OneAct(acts, One(ReadHost, true, 7, 1, None), OtherError, One(CloseConn(true), true, 7, 1, None));
    acts := acts + [Act(0, OtherError)];
    OneAct(acts, One(CloseConn(true), true, 7, 1, None), OtherError, One(Leaked, true, 7, 1, None));
    acts := acts + [Act(0, OtherError)];
  }

  // ---- progress ----

  /** No handler waits for ever on another: while one has not ended, some handler can step. */
  lemma NoDeadlock(s: State, j: nat)
    requires Inv(s) && j < |s.handlers| && !Ended(s.handlers[j])
    ensures exists i: nat | i < |s.handlers| :: HandlerStep(s, i, Ok(0)).Some?
  {
    var i := if s.handlers[j].pc.WantLock? && s.lock.Some? then s.lock.value else j;
    assert HandlerStep(s, i, Ok(0)).Some?;
  }

  /** Stages a handler has still to go through, and the steps left within the stage: each address
      costs at most three. */
  function Stage(pc: Pc): nat {
    match pc
    case Start => 11 case WantLock => 10 case Check => 9 case Add(_) => 8 case Unlock(_) => 7 case ReadHost => 6
    case Resolve => 5 case Connect(_) => 4 case Copying(_) => 4 case CloseFailed(_) => 4
    case CloseUpstream(_) => 3 case CloseConn(_) => 2 case Release => 1
    case Done => 0 case Leaked => 0 case Overrun => 0
  }

  function Within(pc: Pc): nat {
    match pc
    case Connect(left) => 3 * left
    case Copying(left) => 3 * left + 2
    case CloseFailed(left) => 3 * left + 1
    case _ => 0
  }

  /** TERMINATION: each step takes its handler to an earlier stage or on within it, and leaves the
      other handlers where they are; however many addresses a name has, every handler ends. */
  lemma StepAdvances(s: State, j: nat, o: Outcome, s': State)
    requires j < |s.handlers| && HandlerStep(s, j, o) == Some(s')
    ensures
      var before, after := s.handlers[j].pc, s'.handlers[j].pc;
      Stage(after) < Stage(before) || (Stage(after) == Stage(before) && Within(after) < Within(before))
    ensures s'.handlers == s.handlers[j := s'.handlers[j]]
  {
  }
}
