/** internal/scope/scope.go: drift between the account inventories of two consecutive scans. */
module Scope {
  import opened Sorting

  datatype AccountsSnapshot = AccountsSnapshot(listed: seq<string>, scanned: seq<string>)

  datatype Event =
    | AccountAdded(accountID: string, scannerRolePresent: bool)
    | AccountRemoved(accountID: string)
    | CoverageDecreased(previousScanned: nat, previousListed: nat, currentScanned: nat, currentListed: nat)

  // ---- float64 (section 3.4 of IEEE 754-2019) ----

  function Pow2(e: int): (r: real)
    ensures r > 0.0
    decreases if e < 0 then -e else e
  {
    if e == 0 then 1.0 else if e > 0 then 2.0 * Pow2(e - 1) else Pow2(e + 1) / 2.0
  }

  const PRECISION: int := 0x20_0000_0000_0000

  function Scaled(m: int, e: int): real { m as real * Pow2(e) }

  ghost predicate Representable(v: real) {
    exists m: int, e: int :: -PRECISION < m < PRECISION && -1074 <= e <= 971 && v == Scaled(m, e)
  }

  function Distance(x: real, y: real): real { if x < y then y - x else x - y }

  /** Round to nearest with any rule for ties, over the range of quotients of lengths
      (section 4.3.1 of IEEE 754-2019). */
  ghost predicate RoundsToNearest(fl: real -> real) {
    forall x | 0.0 <= x <= PRECISION as real ::
      Representable(fl(x)) && forall v | Representable(v) :: Distance(x, fl(x)) <= Distance(x, v)
  }

  function Ratio(fl: real -> real, scanned: nat, listed: nat): real
    requires fl(listed as real) != 0.0
  {
    fl(fl(scanned as real) / fl(listed as real))
  }

  lemma Monotone(fl: real -> real, x: real, y: real)
    requires RoundsToNearest(fl) && 0.0 <= x <= y <= PRECISION as real
    ensures fl(x) <= fl(y)
  {
    assert Distance(x, fl(x)) <= Distance(x, fl(y));
    assert Distance(y, fl(y)) <= Distance(y, fl(x));
  }

  lemma FixesRepresentable(fl: real -> real, x: real)
    requires RoundsToNearest(fl) && 0.0 <= x <= PRECISION as real && Representable(x)
    ensures fl(x) == x
  {
    assert Distance(x, fl(x)) <= Distance(x, x);
  }

  lemma IntegersRepresentable(n: nat)
    requires n <= PRECISION
    ensures Representable(n as real)
  {
    if n < PRECISION {
      assert n as real == Scaled(n, 0);
    } else {
      assert n as real == Scaled(n / 2, 1);
    }
  }

  /** Every length is converted exactly. */
  lemma ExactRatio(fl: real -> real, scanned: nat, listed: nat)
    requires RoundsToNearest(fl) && scanned <= PRECISION && 0 < listed <= PRECISION
    ensures fl(listed as real) != 0.0
    ensures Ratio(fl, scanned, listed) == fl(scanned as real / listed as real)
  {
    IntegersRepresentable(scanned);
    IntegersRepresentable(listed);
    FixesRepresentable(fl, scanned as real);
    FixesRepresentable(fl, listed as real);
  }

  lemma QuotientInRange(n: nat, d: nat)
    requires d > 0
    ensures 0.0 <= n as real / d as real <= n as real
    ensures n <= d ==> n as real / d as real <= 1.0
  {
    var q := n as real / d as real;
    assert q * d as real == n as real;
    if q < 0.0 { Scale(q, 0.0, d as real); }
    if q > n as real {
      Scale(n as real, q, d as real);
      MulMonotone(n as real, 1.0, d as real);
    }
    if n <= d && q > 1.0 { Scale(1.0, q, d as real); }
  }

  lemma CrossMultiply(a: nat, b: nat, c: nat, d: nat)
    requires b > 0 && d > 0
    ensures a as real / b as real < c as real / d as real <==> a * d < c * b
  {
    var x, y := a as real / b as real, c as real / d as real;
    assert x * b as real == a as real && y * d as real == c as real;
    assert (a * d) as real == x * (b as real * d as real);
    assert (c * b) as real == y * (b as real * d as real);
    Scale(x, y, b as real * d as real);
  }

  lemma Scale(x: real, y: real, k: real)
    requires k > 0.0
    ensures x < y <==> x * k < y * k
  {
    if x < y { assert (y - x) * k > 0.0; }
    if y < x { assert (x - y) * k > 0.0; }
  }

  /** The exact coverage ratio dropped: scanned over listed, previous then current. */
  predicate Dropped(ps: nat, pl: nat, cs: nat, cl: nat) { cs * pl < ps * cl }

  predicate Reported(fl: real -> real, ps: nat, pl: nat, cs: nat, cl: nat)
    requires fl(pl as real) != 0.0 && fl(cl as real) != 0.0
  {
    Ratio(fl, cs, cl) < Ratio(fl, ps, pl)
  }

  /** NO FALSE DROP, at any size a slice can have. */
  lemma NoFalseDrop(fl: real -> real, ps: nat, pl: nat, cs: nat, cl: nat)
    requires RoundsToNearest(fl) && ps <= PRECISION && cs <= PRECISION
    requires 0 < pl <= PRECISION && 0 < cl <= PRECISION
    ensures fl(pl as real) != 0.0 && fl(cl as real) != 0.0
    ensures Reported(fl, ps, pl, cs, cl) ==> Dropped(ps, pl, cs, cl)
  {
    ExactRatio(fl, ps, pl);
    ExactRatio(fl, cs, cl);
    CrossMultiply(cs, cl, ps, pl);
    QuotientInRange(ps, pl);
    QuotientInRange(cs, cl);
    if !Dropped(ps, pl, cs, cl) {
      Monotone(fl, ps as real / pl as real, cs as real / cl as real);
    }
  }

  /** k times 2^-53. */
  function Ticks(k: int): real { k as real / 9007199254740992.0 }

  lemma TickIsPow2()
    ensures Pow2(-53) == Ticks(1)
  {
    assert Pow2(-10) == 1.0 / 1024.0;
    assert Pow2(-20) == 1.0 / 1048576.0;
    assert Pow2(-30) == 1.0 / 1073741824.0;
    assert Pow2(-40) == 1.0 / 1099511627776.0;
    assert Pow2(-50) == 1.0 / 1125899906842624.0;
  }

  lemma TicksRepresentable(k: nat)
    requires k <= PRECISION
    ensures Representable(Ticks(k))
  {
    TickIsPow2();
    if k < PRECISION {
      assert k as real * Ticks(1) == Ticks(k);
      assert Ticks(k) == Scaled(k, -53);
    } else {
      assert Ticks(k) == Scaled(1, 0);
    }
  }

  /** Up to 1 rounding moves a value by at most half a tick. */
  lemma RoundingError(fl: real -> real, x: real)
    requires RoundsToNearest(fl) && 0.0 <= x <= 1.0
    ensures Distance(x, fl(x)) <= Ticks(1) / 2.0
  {
    var k: int := (x * 9007199254740992.0).Floor;
    assert k as real <= x * 9007199254740992.0 < (k + 1) as real;
    assert 0 <= k <= PRECISION;
    assert Ticks(k) <= x < Ticks(k + 1);
    TicksRepresentable(k);
    assert Distance(x, fl(x)) <= Distance(x, Ticks(k));
    if k < PRECISION {
      TicksRepresentable(k + 1);
      assert Distance(x, fl(x)) <= Distance(x, Ticks(k + 1));
    }
  }

  /** Two different fractions lie at least 1/(b*d) apart. */
  lemma FractionGap(a: nat, b: nat, c: nat, d: nat)
    requires b > 0 && d > 0 && a * d < c * b && b * d < PRECISION
    ensures c as real / d as real - a as real / b as real > Ticks(1)
  {
    var x, y, k := a as real / b as real, c as real / d as real, (b * d) as real;
    assert x * b as real == a as real && y * d as real == c as real;
    assert k == b as real * d as real;
    assert (a * d) as real == x * k;
    assert (c * b) as real == y * k;
    assert (y - x) * k >= 1.0;
    assert Ticks(1) * k < 1.0;
    Scale(Ticks(1), y - x, k);
  }

  /** NONE MISSED: when the product of the two listed counts stays below 2^53, the rounded
      comparison is the exact one. */
  lemma DropIsExact(fl: real -> real, ps: nat, pl: nat, cs: nat, cl: nat)
    requires RoundsToNearest(fl) && ps <= pl && cs <= cl
    requires 0 < pl <= PRECISION && 0 < cl <= PRECISION && pl * cl < PRECISION
    ensures fl(pl as real) != 0.0 && fl(cl as real) != 0.0
    ensures Reported(fl, ps, pl, cs, cl) <==> Dropped(ps, pl, cs, cl)
  {
    NoFalseDrop(fl, ps, pl, cs, cl);
    if Dropped(ps, pl, cs, cl) {
      ExactRatio(fl, ps, pl);
      ExactRatio(fl, cs, cl);
      assert cl * pl == pl * cl;
      FractionGap(cs, cl, ps, pl);
      QuotientInRange(ps, pl);
      QuotientInRange(cs, cl);
      RoundingError(fl, ps as real / pl as real);
      RoundingError(fl, cs as real / cl as real);
    }
  }

  /** In particular whenever both scans list fewer than 2^26 accounts. */
  lemma DropIsExactBelow26Bits(fl: real -> real, ps: nat, pl: nat, cs: nat, cl: nat)
    requires RoundsToNearest(fl) && ps <= pl && cs <= cl && 0 < pl < 0x400_0000 && 0 < cl < 0x400_0000
    ensures fl(pl as real) != 0.0 && fl(cl as real) != 0.0
    ensures Reported(fl, ps, pl, cs, cl) <==> Dropped(ps, pl, cs, cl)
  {
    ProductBelow(pl, cl, 0x400_0000);
    DropIsExact(fl, ps, pl, cs, cl);
  }

  lemma ProductBelow(m: nat, n: nat, k: nat)
    requires m < k && n < k
    ensures m * n <= k * k
  {
    assert (k - m) * n >= 0 && (k - n) * k >= 0;
  }

  // ---- the bound is needed ----

  lemma {:induction false} Pow2Monotone(e: int, k: nat)
    ensures Pow2(e) <= Pow2(e + k)
    decreases k
  {
    if k > 0 {
      Pow2Monotone(e, k - 1);
      assert Pow2(e + k) == 2.0 * Pow2(e + k - 1);
    }
  }

  function IntPow2(k: nat): int { if k == 0 then 1 else 2 * IntPow2(k - 1) }

  lemma {:induction false} Pow2Splits(e: int, k: nat)
    ensures Pow2(e + k) == IntPow2(k) as real * Pow2(e)
    decreases k
  {
    if k > 0 {
      Pow2Splits(e, k - 1);
      assert Pow2(e + k) == 2.0 * Pow2(e + k - 1);
    }
  }

  /** Below exponent -53 no value reaches 1/2. */
  lemma SmallExponent(m: int, e: int)
    requires m < PRECISION && e < -53
    ensures Scaled(m, e) < 0.5
  {
    Pow2Monotone(e, -54 - e);
    TickIsPow2();
    assert Pow2(-53) == 2.0 * Pow2(-54);
    var p := Pow2(e);
    assert 0.0 < p <= 1.0 / 18014398509481984.0;
    if m > 0 { assert m as real * p <= m as real * (1.0 / 18014398509481984.0) by { MulMonotone(m as real, p, 1.0 / 18014398509481984.0); } }
    else { MulMonotone(-(m as real), 0.0, p); }
  }

  lemma MulMonotone(k: real, x: real, y: real)
    requires k >= 0.0 && x <= y
    ensures k * x <= k * y
  {
  }

  lemma LargeExponent(m: int, e: int)
    requires e >= -53
    ensures Scaled(m, e) == Ticks(m * IntPow2(e + 53))
  {
    TickIsPow2();
    Pow2Splits(-53, e + 53);
    TicksMul(m, IntPow2(e + 53), Pow2(e));
  }

  lemma TicksMul(m: int, i: int, p: real)
    requires p == i as real * Ticks(1)
    ensures m as real * p == Ticks(m * i)
  {
    var u := Ticks(1);
    assert Ticks(i) == i as real * u && Ticks(m * i) == (m * i) as real * u;
    assert (m * i) as real == m as real * i as real;
  }

  /** A representable value of at least 1/2 is a whole number of ticks. */
  lemma Spacing(v: real) returns (n: int)
    requires Representable(v) && v >= 0.5
    ensures v == Ticks(n)
  {
    var m, e :| -PRECISION < m < PRECISION && -1074 <= e <= 971 && v == Scaled(m, e);
    if e < -53 { SmallExponent(m, e); }
    LargeExponent(m, e);
    n := m * IntPow2(e + 53);
  }

  /** A value closer than half a tick to a whole number of ticks rounds to it. */
  lemma RoundsTo(fl: real -> real, x: real, k: nat)
    requires RoundsToNearest(fl) && 0x18_0000_0000_0000 <= k <= PRECISION
    requires 0.0 <= x <= 1.0 && 2.0 * Distance(x, Ticks(k)) < Ticks(1)
    ensures fl(x) == Ticks(k)
  {
    TicksRepresentable(k);
    assert Distance(x, fl(x)) <= Distance(x, Ticks(k));
    var n := Spacing(fl(x));
    assert n == k;
  }

  lemma CloseQuotients()
    ensures
      var x, y, k := 74922845.0 / 77061317.0, 113640262.0 / 116883819.0, 8757247084773737;
      && 0.0 <= y < x <= 1.0 && 2.0 * Distance(x, Ticks(k)) < Ticks(1) && 2.0 * Distance(y, Ticks(k)) < Ticks(1)
  {
  }

  lemma SameRounded(fl: real -> real, ps: nat, pl: nat, cs: nat, cl: nat, x: real, y: real)
    requires RoundsToNearest(fl) && ps <= PRECISION && cs <= PRECISION && 0 < pl <= PRECISION && 0 < cl <= PRECISION
    requires x == ps as real / pl as real && y == cs as real / cl as real && fl(x) == fl(y)
    ensures fl(pl as real) != 0.0 && fl(cl as real) != 0.0
    ensures !Reported(fl, ps, pl, cs, cl)
  {
    ExactRatio(fl, ps, pl);
    ExactRatio(fl, cs, cl);
  }

  /** THE BOUND IS NEEDED: a drop that goes unreported, with a product of listed counts less than three
      millionths above 2^53. */
  lemma MissedDrop(fl: real -> real)
    requires RoundsToNearest(fl)
    ensures PRECISION < 77061317 * 116883819 && 1000000 * (77061317 * 116883819 - PRECISION) < 3 * PRECISION
    ensures Dropped(74922845, 77061317, 113640262, 116883819)
    ensures fl(77061317 as real) != 0.0 && fl(116883819 as real) != 0.0
    ensures !Reported(fl, 74922845, 77061317, 113640262, 116883819)
  {
    CloseQuotients();
    RoundsTo(fl, 74922845.0 / 77061317.0, 8757247084773737);
    RoundsTo(fl, 113640262.0 / 116883819.0, 8757247084773737);
    SameRounded(fl, 74922845, 77061317, 113640262, 116883819, 74922845.0 / 77061317.0, 113640262.0 / 116883819.0);
  }

  // ---- Detect ----

  function Added(listed: seq<string>, known: set<string>, scanned: set<string>): seq<Event> {
    if listed == [] then []
    else
      var n := |listed| - 1;
      Added(listed[..n], known, scanned)
      + if listed[n] in known then [] else [AccountAdded(listed[n], listed[n] in scanned)]
  }

  function Removed(listed: seq<string>, known: set<string>): seq<Event> {
    if listed == [] then []
    else
      var n := |listed| - 1;
      Removed(listed[..n], known) + if listed[n] in known then [] else [AccountRemoved(listed[n])]
  }

  function Decrease(p: AccountsSnapshot, c: AccountsSnapshot): Event {
    CoverageDecreased(|p.scanned|, |p.listed|, |c.scanned|, |c.listed|)
  }

  ghost predicate Lossy(fl: real -> real, p: AccountsSnapshot, c: AccountsSnapshot) {
    && |p.listed| > 0 && |c.listed| > 0
    && fl(|p.listed| as real) != 0.0 && fl(|c.listed| as real) != 0.0 && Reported(fl, |p.scanned|, |p.listed|, |c.scanned|, |c.listed|)
  }

  ghost function Drift(fl: real -> real, p: AccountsSnapshot, c: AccountsSnapshot): seq<Event> {
    if p == AccountsSnapshot([], []) then []
    else
      Added(c.listed, Elems(p.listed), Elems(c.scanned)) + Removed(p.listed, Elems(c.listed))
      + if Lossy(fl, p, c) then [Decrease(p, c)] else []
  }

  method ToSet(ids: seq<string>) returns (r: set<string>)
    ensures r == Elems(ids)
  {
    r := {};
    for i := 0 to |ids|
      invariant r == Elems(ids[..i])
    {
      assert ids[..i + 1] == ids[..i] + [ids[i]];
      SnocElems(ids[..i], ids[i]);
      r := r + {ids[i]};
    }
    assert ids[..|ids|] == ids;
  }

  method Detect(fl: real -> real, previous: AccountsSnapshot, current: AccountsSnapshot) returns (events: seq<Event>)
    requires RoundsToNearest(fl) && |previous.listed| <= PRECISION && |current.listed| <= PRECISION
    ensures events == Drift(fl, previous, current)
  {
    events := [];
    if |previous.listed| == 0 && |previous.scanned| == 0 { return; }
    var prevListed := ToSet(previous.listed);
    var currListed := ToSet(current.listed);
    var currScanned := ToSet(current.scanned);
    for i := 0 to |current.listed|
      invariant events == Added(current.listed[..i], prevListed, currScanned)
    {
      var id := current.listed[i];
      assert current.listed[..i + 1][..i] == current.listed[..i];
      if id !in prevListed { events := events + [AccountAdded(id, id in currScanned)]; }
    }
    assert current.listed[..|current.listed|] == current.listed;
    ghost var before := events;
    for i := 0 to |previous.listed|
      invariant events == before + Removed(previous.listed[..i], currListed)
    {
      var id := previous.listed[i];
      assert previous.listed[..i + 1][..i] == previous.listed[..i];
      if id !in currListed { events := events + [AccountRemoved(id)]; }
    }
    assert previous.listed[..|previous.listed|] == previous.listed;
    if |previous.listed| > 0 && |current.listed| > 0 {
      IntegersRepresentable(|previous.listed|);
      IntegersRepresentable(|current.listed|);
      FixesRepresentable(fl, |previous.listed| as real);
      FixesRepresentable(fl, |current.listed| as real);
      var prevRatio := Ratio(fl, |previous.scanned|, |previous.listed|);
      var currRatio := Ratio(fl, |current.scanned|, |current.listed|);
      if currRatio < prevRatio { events := events + [Decrease(previous, current)]; }
    }
  }

  lemma {:induction false} AddedEvents(listed: seq<string>, known: set<string>, scanned: set<string>)
    ensures forall e :: e in Added(listed, known, scanned) <==>
      e.AccountAdded? && e.accountID in listed && e.accountID !in known && (e.scannerRolePresent <==> e.accountID in scanned)
  {
    if listed != [] {
      var n := |listed| - 1;
      AddedEvents(listed[..n], known, scanned);
      assert listed == listed[..n] + [listed[n]];
    }
  }

  lemma {:induction false} RemovedEvents(listed: seq<string>, known: set<string>)
    ensures forall e :: e in Removed(listed, known) <==> e.AccountRemoved? && e.accountID in listed && e.accountID !in known
  {
    if listed != [] {
      var n := |listed| - 1;
      RemovedEvents(listed[..n], known);
      assert listed == listed[..n] + [listed[n]];
    }
  }

  ghost predicate HasAdded(es: seq<Event>, id: string) { exists role :: AccountAdded(id, role) in es }

  /** Replays the membership events on the previous list. */
  ghost predicate ListedAfter(listed: seq<string>, es: seq<Event>, id: string) {
    (id in listed && AccountRemoved(id) !in es) || HasAdded(es, id)
  }

  /** The events say exactly which account came, with or without a scanner role, which went, and
      whether coverage fell; a first scan is no drift. */
  lemma DriftIsExact(fl: real -> real, p: AccountsSnapshot, c: AccountsSnapshot, e: Event)
    ensures e in Drift(fl, p, c) <==>
      && p != AccountsSnapshot([], [])
      && match e
         case AccountAdded(id, role) => id in c.listed && id !in p.listed && (role <==> id in c.scanned)
         case AccountRemoved(id) => id in p.listed && id !in c.listed
         case CoverageDecreased(a, b, x, y) =>
           a == |p.scanned| && b == |p.listed| && x == |c.scanned| && y == |c.listed| && Lossy(fl, p, c)
  {
    AddedEvents(c.listed, Elems(p.listed), Elems(c.scanned));
    RemovedEvents(p.listed, Elems(c.listed));
    assert forall id :: id in p.listed <==> id in Elems(p.listed);
    assert forall id :: id in c.listed <==> id in Elems(c.listed);
    assert forall id :: id in c.scanned <==> id in Elems(c.scanned);
  }

  /** A COVERAGE EVENT IS A DROP: its numbers are those of the two snapshots, and the share of scanned accounts
      has fallen. */
  lemma CoverageEventIsDrop(fl: real -> real, p: AccountsSnapshot, c: AccountsSnapshot, a: nat, b: nat, x: nat, y: nat)
    requires RoundsToNearest(fl) && |p.scanned| <= PRECISION && |p.listed| <= PRECISION
    requires |c.scanned| <= PRECISION && |c.listed| <= PRECISION
    requires CoverageDecreased(a, b, x, y) in Drift(fl, p, c)
    ensures a == |p.scanned| && b == |p.listed| && x == |c.scanned| && y == |c.listed| && b > 0 && y > 0 && x * b < a * y
  {
    DriftIsExact(fl, p, c, CoverageDecreased(a, b, x, y));
    NoFalseDrop(fl, |p.scanned|, |p.listed|, |c.scanned|, |c.listed|);
  }

  /** AND EVERY DROP IS ONE, below a product of listed counts of 2^53. */
  lemma CoverageEventIff(fl: real -> real, p: AccountsSnapshot, c: AccountsSnapshot, a: nat, b: nat, x: nat, y: nat)
    requires RoundsToNearest(fl) && |p.scanned| <= |p.listed| <= PRECISION && |c.scanned| <= |c.listed| <= PRECISION
    requires |p.listed| * |c.listed| < PRECISION
    ensures CoverageDecreased(a, b, x, y) in Drift(fl, p, c) <==>
      && p.listed != [] && c.listed != [] && a == |p.scanned| && b == |p.listed| && x == |c.scanned| && y == |c.listed|
      && x * b < a * y
  {
    DriftIsExact(fl, p, c, CoverageDecreased(a, b, x, y));
    if p.listed != [] && c.listed != [] { DropIsExact(fl, |p.scanned|, |p.listed|, |c.scanned|, |c.listed|); }
  }

  /** The IDs of one list that are not in the other, in order. */
  function Outside(ids: seq<string>, known: seq<string>): seq<string> {
    if ids == [] then []
    else
      var n := |ids| - 1;
      if ids[n] in known then Outside(ids[..n], known) else Outside(ids[..n], known) + [ids[n]]
  }

  lemma {:induction false} AddedInOrder(listed: seq<string>, known: seq<string>, scanned: set<string>)
    ensures
      var es, ids := Added(listed, Elems(known), scanned), Outside(listed, known);
      |es| == |ids| && forall i | 0 <= i < |es| :: es[i] == AccountAdded(ids[i], ids[i] in scanned)
  {
    if listed != [] { AddedInOrder(listed[..|listed| - 1], known, scanned); }
  }

  lemma {:induction false} RemovedInOrder(listed: seq<string>, known: seq<string>)
    ensures
      var es, ids := Removed(listed, Elems(known)), Outside(listed, known);
      |es| == |ids| && forall i | 0 <= i < |es| :: es[i] == AccountRemoved(ids[i])
  {
    if listed != [] { RemovedInOrder(listed[..|listed| - 1], known); }
  }

  /** ORDER: first the accounts that came, as they are listed now, then those that went, as they were
      listed, then the drop of coverage. */
  lemma DriftInOrder(fl: real -> real, p: AccountsSnapshot, c: AccountsSnapshot)
    requires p != AccountsSnapshot([], [])
    ensures
      var es, came, went := Drift(fl, p, c), Outside(c.listed, p.listed), Outside(p.listed, c.listed);
      && |came| + |went| <= |es| <= |came| + |went| + 1
      && (forall i | 0 <= i < |came| :: es[i] == AccountAdded(came[i], came[i] in c.scanned))
      && (forall i | 0 <= i < |went| :: es[|came| + i] == AccountRemoved(went[i]))
      && (|es| > |came| + |went| ==> es[|es| - 1].CoverageDecreased?)
  {
    AddedInOrder(c.listed, p.listed, Elems(c.scanned));
    RemovedInOrder(p.listed, c.listed);
    var added, removed := Added(c.listed, Elems(p.listed), Elems(c.scanned)), Removed(p.listed, Elems(c.listed));
    assert forall i | 0 <= i < |added| :: Drift(fl, p, c)[i] == added[i];
    assert forall i | 0 <= i < |removed| :: Drift(fl, p, c)[|added| + i] == removed[i];
  }

  /** REBUILD: the current list follows from the previous one and the events, unless the previous
      snapshot was the zero value and there is something listed now. */
  lemma DriftRebuilds(fl: real -> real, p: AccountsSnapshot, c: AccountsSnapshot)
    ensures (forall id :: ListedAfter(p.listed, Drift(fl, p, c), id) <==> id in c.listed)
            <==> (p != AccountsSnapshot([], []) || c.listed == [])
  {
    forall id
      ensures (p != AccountsSnapshot([], []) || c.listed == []) ==> (ListedAfter(p.listed, Drift(fl, p, c), id) <==> id in c.listed)
    {
      DriftIsExact(fl, p, c, AccountRemoved(id));
      DriftIsExact(fl, p, c, AccountAdded(id, true));
      DriftIsExact(fl, p, c, AccountAdded(id, false));
      assert forall role: bool :: AccountAdded(id, role) == AccountAdded(id, true) || AccountAdded(id, role) == AccountAdded(id, false);
    }
    if p == AccountsSnapshot([], []) && c.listed != [] {
      assert !ListedAfter(p.listed, Drift(fl, p, c), c.listed[0]) && c.listed[0] in c.listed;
    }
  }
}
