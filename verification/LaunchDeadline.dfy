/** The launch deadline (internal/kernel/authority/authority.go:392-428) in
    int64 nanoseconds, and the range admission accepts
    (internal/kernel/admission/admission.go:213-231). Instants are unbounded;
    durations wrap and saturate as Go's do. */
module LaunchDeadline {
  import opened Text

  const Second := 1_000_000_000
  const MaxInt64 := 0x7FFF_FFFF_FFFF_FFFF
  const MinInt64 := -0x8000_0000_0000_0000

  /** maxDurationSeconds in admission */
  const MaxSeconds := MaxInt64 / Second

  /** Multiplication of int64 values wraps around. */
  function Wrap(x: int): int {
    var r := x % 0x1_0000_0000_0000_0000;
    if r > MaxInt64 then r - 0x1_0000_0000_0000_0000 else r
  }

  /** time.Duration(seconds) * time.Second */
  function Duration(seconds: int): int { Wrap(seconds * Second) }

  /** time.Time.Sub saturates. */
  function Sub(a: int, b: int): int {
    if a - b > MaxInt64 then MaxInt64 else if a - b < MinInt64 then MinInt64 else a - b
  }

  /** Go's division truncates toward zero. */
  function WholeSeconds(d: int): int { if d >= 0 then d / Second else -((-d) / Second) }

  datatype Limits = Limits(
    ceiling: int,
    contractDeadline: Option<int>,
    runDeadline: Option<int>,
    expiries: seq<int>,
    wall: Option<int>,
    used: int)

  datatype Boundary = Boundary(notAfter: int, timeoutSeconds: int)

  datatype Denial = BudgetExhausted | AuthorityExpired | CallerInvalid | CallerWidens

  datatype Outcome = Granted(boundary: Boundary) | Denied(why: Denial)

  function Listed(t: Option<int>): seq<int> { if t.Some? then [t.value] else [] }

  /** Every instant authority may not outlive. */
  function Bounds(x: Limits, now: int): seq<int> {
    [now + Duration(x.ceiling)] + Listed(x.contractDeadline) + Listed(x.runDeadline) + x.expiries
    + if x.wall.Some? then [now + (x.wall.value - x.used) * Second] else []
  }

  /** t is the greatest instant within all bounds. */
  predicate IsMeet(t: int, bounds: seq<int>) {
    t in bounds && forall b <- bounds :: t <= b
  }

  /** What the daemon and admission check: a positive int64 ceiling, and a budget
      in range. */
  predicate InRange(x: Limits) {
    && 1 <= x.ceiling <= MaxInt64
    && (x.wall.Some? ==> x.wall.value - x.used <= MaxSeconds)
  }

  lemma DurationBounded(seconds: int)
    ensures MinInt64 <= Duration(seconds) <= MaxInt64
  {
  }

  lemma DurationExact(seconds: int)
    requires 0 <= seconds <= MaxSeconds
    ensures Duration(seconds) == seconds * Second
  {
  }

  /** The ceiling is only checked to be positive. Its duration is exact exactly
      up to the range admission enforces for budgets; beyond, it is smaller than
      meant, so the boundary can only come earlier. */
  lemma CeilingExact(seconds: int)
    requires 1 <= seconds <= MaxInt64
    ensures Duration(seconds) == seconds * Second <==> seconds <= MaxSeconds
    ensures Duration(seconds) <= seconds * Second
  {
    var x, m := seconds * Second, 0x1_0000_0000_0000_0000;
    assert x == m * (x / m) + x % m;
    if seconds <= MaxSeconds { DurationExact(seconds); }
  }

  /** Just past the range a larger ceiling grants nothing at all. */
  lemma CeilingOverflows()
    ensures Duration(MaxSeconds + 1) < 0 < Duration(MaxSeconds)
  {
  }

  /** A budget admission accepted, less any non-negative usage, stays in range. */
  lemma AdmittedBudgetInRange(seconds: int, used: int)
    requires 1 <= seconds <= MaxSeconds && used >= 0
    ensures seconds - used <= MaxSeconds
    ensures seconds - used >= 1 ==> Duration(seconds - used) == (seconds - used) * Second
  {
  }

  lemma MeetAppend(t: int, bounds: seq<int>, b: int)
    requires IsMeet(t, bounds)
    ensures IsMeet(if b < t then b else t, bounds + [b])
  {
  }

  /** Nothing is later than the meet unless everything is. */
  lemma MeetBelow(meet: int, bounds: seq<int>, t: int)
    requires IsMeet(meet, bounds)
    ensures t <= meet <==> forall b <- bounds :: t <= b
  {
  }

  predicate BudgetLeft(x: Limits) { x.wall.Some? ==> x.wall.value - x.used >= 1 }

  /** The first half of timeoutBoundary: one pass over every limit. */
  method EarliestBound(x: Limits, now: int) returns (notAfter: int)
    requires InRange(x) && BudgetLeft(x)
    ensures IsMeet(notAfter, Bounds(x, now)) && notAfter <= now + MaxInt64
  {
    hide Wrap, Duration, IsMeet;
    DurationBounded(x.ceiling);
    notAfter := now + Duration(x.ceiling);
    ghost var bounds := [notAfter];
    MeetOfOne(notAfter);
    var deadlines := [x.contractDeadline, x.runDeadline];
    for i := 0 to |deadlines|
      invariant IsMeet(notAfter, bounds) && notAfter <= now + MaxInt64
      invariant bounds == [now + Duration(x.ceiling)] + (if i > 0 then Listed(x.contractDeadline) else [])
                          + (if i > 1 then Listed(x.runDeadline) else [])
    {
      if deadlines[i].Some? {
        MeetAppend(notAfter, bounds, deadlines[i].value);
        bounds := bounds + [deadlines[i].value];
        if deadlines[i].value < notAfter { notAfter := deadlines[i].value; }
      }
    }
    ghost var base := bounds;
    for i := 0 to |x.expiries|
      invariant IsMeet(notAfter, bounds) && bounds == base + x.expiries[..i] && notAfter <= now + MaxInt64
    {
      MeetAppend(notAfter, bounds, x.expiries[i]);
      bounds := bounds + [x.expiries[i]];
      if x.expiries[i] < notAfter { notAfter := x.expiries[i]; }
      assert x.expiries[..i + 1] == x.expiries[..i] + [x.expiries[i]];
    }
    assert x.expiries[..|x.expiries|] == x.expiries;
    if x.wall.Some? {
      var remaining := x.wall.value - x.used;
      DurationExact(remaining);
      MeetAppend(notAfter, bounds, now + remaining * Second);
      bounds := bounds + [now + remaining * Second];
      if now + Duration(remaining) < notAfter { notAfter := now + Duration(remaining); }
    }
    assert bounds == Bounds(x, now);
  }

  lemma MeetOfOne(t: int)
    ensures IsMeet(t, [t])
  {
  }

  /** A second of authority is left, and a caller timeout is positive and fits
      within every bound. */
  predicate Grantable(x: Limits, caller: Option<int>, now: int) {
    && BudgetLeft(x)
    && (forall b <- Bounds(x, now) :: now + Second <= b)
    && (caller.Some? ==> 1 <= caller.value && forall b <- Bounds(x, now) :: now + caller.value * Second <= b)
  }

  /** The caller's timeout exactly, or else the meet itself with the whole seconds
      that fit before it. */
  predicate Narrows(boundary: Boundary, x: Limits, caller: Option<int>, now: int) {
    && 1 <= boundary.timeoutSeconds && now + boundary.timeoutSeconds * Second <= boundary.notAfter
    && (forall b <- Bounds(x, now) :: boundary.notAfter <= b)
    && (match caller
        case Some(seconds) => boundary == Boundary(now + seconds * Second, seconds)
        case None =>
          IsMeet(boundary.notAfter, Bounds(x, now)) && boundary.timeoutSeconds == (boundary.notAfter - now) / Second)
  }

  /** timeoutBoundary. The instant it works from is exactly the meet of
      all bounds; a caller timeout only narrows it, and the whole seconds it
      grants never run past it. */
  method TimeoutBoundary(x: Limits, caller: Option<int>, now: int) returns (r: Outcome)
    requires InRange(x)
    ensures r.Granted? <==> Grantable(x, caller, now)
    ensures r.Granted? ==> Narrows(r.boundary, x, caller, now)
    ensures r == Denied(BudgetExhausted) <==> !BudgetLeft(x)
  {
    hide Wrap, Duration, IsMeet, Bounds, Sub, WholeSeconds;
    if x.wall.Some? && x.wall.value - x.used < 1 { return Denied(BudgetExhausted); }
    var notAfter := EarliestBound(x, now);
    MeetBelow(notAfter, Bounds(x, now), now + Second);
    var maximum := WholeSeconds(Sub(notAfter, now));
    WholeSecondsOf(now, notAfter);
    if maximum < 1 { return Denied(AuthorityExpired); }
    MeetBelow(notAfter, Bounds(x, now), notAfter);
    if caller.None? { return Granted(Boundary(notAfter, maximum)); }
    MeetBelow(notAfter, Bounds(x, now), now + caller.value * Second);
    if caller.value < 1 { return Denied(CallerInvalid); }
    if caller.value > maximum {
      assert now + caller.value * Second > notAfter;
      return Denied(CallerWidens);
    }
    DurationExact(caller.value);
    return Granted(Boundary(now + Duration(caller.value), caller.value));
  }

  /** A wrapped duration is an int64, so the difference never saturates upwards. */
  lemma WholeSecondsOf(now: int, notAfter: int)
    requires notAfter <= now + MaxInt64
    ensures var maximum := WholeSeconds(Sub(notAfter, now));
            && (maximum >= 1 <==> notAfter >= now + Second)
            && (maximum >= 1 ==> maximum == (notAfter - now) / Second && maximum <= MaxSeconds
                                 && now + maximum * Second <= notAfter < now + (maximum + 1) * Second)
  {
  }

  // ---- monotonicity --------------------------------------------------------------------

  predicate Earlier(a: Option<int>, b: Option<int>) { b.Some? ==> a.Some? && a.value <= b.value }

  /** Limits that are at least as strict, possibly with further grants. */
  predicate Stricter(a: Limits, b: Limits) {
    && 1 <= a.ceiling <= b.ceiling <= MaxSeconds
    && Earlier(a.contractDeadline, b.contractDeadline) && Earlier(a.runDeadline, b.runDeadline)
    && |b.expiries| <= |a.expiries|
    && (forall i :: 0 <= i < |b.expiries| ==> a.expiries[i] <= b.expiries[i])
    && (b.wall.Some? ==> a.wall.Some? && a.wall.value - a.used <= b.wall.value - b.used)
  }

  lemma StricterBound(a: Limits, b: Limits, now: int, bound: int)
    requires Stricter(a, b) && bound in Bounds(b, now)
    ensures exists c :: c in Bounds(a, now) && c <= bound
  {
    if bound in b.expiries {
      var i :| 0 <= i < |b.expiries| && b.expiries[i] == bound;
      assert a.expiries[i] in a.expiries && a.expiries[i] in Bounds(a, now);
    } else if bound == now + Duration(b.ceiling) {
      DurationExact(a.ceiling);
      DurationExact(b.ceiling);
      assert now + Duration(a.ceiling) in Bounds(a, now);
    } else if b.contractDeadline == Some(bound) {
      assert a.contractDeadline.value in Bounds(a, now);
    } else if b.runDeadline == Some(bound) {
      assert a.runDeadline.value in Bounds(a, now);
    } else {
      assert now + (a.wall.value - a.used) * Second in Bounds(a, now);
    }
  }

  /** The boundary never grows when a limit shrinks or a grant is added. */
  lemma BoundaryNeverGrows(a: Limits, b: Limits, now: int, meetA: int, meetB: int)
    requires Stricter(a, b) && IsMeet(meetA, Bounds(a, now)) && IsMeet(meetB, Bounds(b, now))
    ensures meetA <= meetB
    ensures (meetA - now) / Second <= (meetB - now) / Second
  {
    StricterBound(a, b, now, meetB);
  }
}
