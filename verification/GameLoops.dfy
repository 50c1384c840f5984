/** The pacing of the game loop: one tick per period, and what happens when a tick overruns. */
module GameLoops {

  const U32 := 0x1_0000_0000

  /** Ticks counted so far, skipped ones included, the loop's reference time, and the wall clock. */
  datatype Pace = Pace(ticks: nat, t1: int, now: int)

  /** One turn of the loop: the tick's work takes some time, and the sleep may last longer than asked for. */
  function Turn(rate: nat, p: Pace, work: nat, oversleep: nat): Pace
    requires 0 < rate
  {
    var rest := rate - (p.now + work - p.t1);
    if rest >= 0 then
      Pace(p.ticks + 1, p.t1 + rate, p.now + work + rest + oversleep)
    else
      var behind := -rest;
      Pace(p.ticks + 1 + behind / rate,
           p.t1 + (behind - behind % rate) + rate,
           p.now + work + (rate - behind % rate) + oversleep)
  }

  /** The loop's state after these turns. */
  function After(rate: nat, start: int, work: seq<nat>, oversleep: seq<nat>): Pace
    requires 0 < rate && |work| == |oversleep|
  {
    if work == [] then Pace(0, start, start)
    else
      var n := |work| - 1;
      Turn(rate, After(rate, start, work[..n], oversleep[..n]), work[n], oversleep[n])
  }

  method Loop(rate: nat, start: int, work: seq<nat>, oversleep: seq<nat>) returns (tickId: nat, t1: int, now: int)
    requires 0 < rate && |work| == |oversleep|
    ensures tickId == After(rate, start, work, oversleep).ticks % U32
    ensures t1 == After(rate, start, work, oversleep).t1
    ensures now == After(rate, start, work, oversleep).now
    ensures Punctual(rate, work, oversleep) ==>
              tickId == |work| % U32 && t1 == now == start + |work| * rate
  {
    tickId, t1, now := 0, start, start;
    ghost var ticks: nat := 0;
    for k := 0 to |work|
      invariant Pace(ticks, t1, now) == After(rate, start, work[..k], oversleep[..k])
      invariant tickId == ticks % U32
    {
      assert work[..k + 1][..k] == work[..k] && oversleep[..k + 1][..k] == oversleep[..k];
      tickId, t1, now, ticks := OneTurn(rate, tickId, t1, now, work[k], oversleep[k], ticks);
    }
    assert work[..|work|] == work && oversleep[..|work|] == oversleep;
    if Punctual(rate, work, oversleep) {
      PunctualRun(rate, start, work, oversleep);
    }
  }

  /** No tick takes longer than its period, and no sleep longer than asked for. */
  ghost predicate Punctual(rate: nat, work: seq<nat>, oversleep: seq<nat>)
    requires |work| == |oversleep|
  {
    forall k | 0 <= k < |work| :: work[k] <= rate && oversleep[k] == 0
  }

  /** The body of the loop; now stands for reading the clock. */
  method OneTurn(rate: nat, tickId: nat, t1: int, now: int, work: nat, oversleep: nat, ghost ticks: nat)
    returns (tickId': nat, t1': int, now': int, ghost ticks': nat)
    requires 0 < rate && tickId == ticks % U32
    ensures Pace(ticks', t1', now') == Turn(rate, Pace(ticks, t1, now), work, oversleep)
    ensures tickId' == ticks' % U32
  {
    now' := now + work;
    tickId', ticks' := (tickId + 1) % U32, ticks + 1;
    t1' := t1;
    var passed := now' - t1;
    var rest := rate - passed;
    if rest < 0 {
      var behind := -rest;
      var skippedTime := behind - behind % rate;
      var skippedTicks := skippedTime / rate;
      WholePeriods(behind, rate);
      t1' := t1 + skippedTime;
      CountTicks(tickId', ticks', skippedTicks);
      tickId', ticks' := (tickId' + skippedTicks % U32) % U32, ticks' + skippedTicks;
      rest := rate - behind % rate;
    }
    now' := now' + rest + oversleep;
    t1' := t1' + rate;
  }

  lemma CountTicks(tickId: nat, ticks: nat, skipped: nat)
    requires tickId == ticks % U32
    ensures (tickId + skipped % U32) % U32 == (ticks + skipped) % U32
  {
  }

  lemma {:induction false} AtLeastOnce(d: nat, n: nat)
    requires 0 < n
    ensures d * n >= d
  {
  }

  lemma SameQuotient(d: nat, a: int, r: nat, b: int, s: nat)
    requires r < d && s < d && d * a + r == d * b + s
    ensures a == b
  {
    if a < b {
      AtLeastOnce(d, b - a);
    } else if b < a {
      AtLeastOnce(d, a - b);
    }
    assert d * (b - a) == r - s;
  }

  /** The time skipped is a whole number of periods. */
  lemma WholePeriods(behind: nat, rate: nat)
    requires 0 < rate
    ensures behind - behind % rate == rate * (behind / rate)
    ensures (behind - behind % rate) / rate == behind / rate
  {
    var skipped := behind - behind % rate;
    SameQuotient(rate, skipped / rate, skipped % rate, behind / rate, 0);
  }

  /**
   * Ticks: one a turn, and one more for every whole period by which the turn is late. The wall clock: from the end of
   * the work it sleeps up to the reference time's next period when there is time left, and else up to the first later
   * instant a whole number of periods away from the reference time. It is never asked to sleep for longer than that.
   */
  lemma TurnTakes(rate: nat, p: Pace, work: nat, oversleep: nat)
    requires 0 < rate && 0 <= Lead(p)
    ensures var q := Turn(rate, p, work, oversleep);
            var late := Lead(p) + work - rate;
            var woken := q.now - oversleep;
            && (late <= 0 ==> q.ticks == p.ticks + 1 && woken == p.t1 + rate)
            && (late > 0 ==>
                  && 0 < q.ticks - p.ticks
                  && rate * (q.ticks - p.ticks - 1) <= late < rate * (q.ticks - p.ticks)
                  && woken == p.t1 + rate * (q.ticks - p.ticks + 1)
                  && p.now + work < woken)
            && p.now + work <= woken <= p.now + work + rate
            && q.t1 == p.t1 + rate * (q.ticks - p.ticks)
  {
    var late := Lead(p) + work - rate;
    if late > 0 {
      WholePeriods(late, rate);
      assert rate * (late / rate + 1) == rate * (late / rate) + rate;
      assert rate * (late / rate + 2) == rate * (late / rate) + 2 * rate;
    }
  }

  /** On time all the way: as many ticks as turns, and as many periods on the clock. */
  lemma {:induction false} PunctualRun(rate: nat, start: int, work: seq<nat>, oversleep: seq<nat>)
    requires 0 < rate && |work| == |oversleep| && Punctual(rate, work, oversleep)
    ensures var p := After(rate, start, work, oversleep);
            p.ticks == |work| && p.now == p.t1 == start + |work| * rate
  {
    if work != [] {
      var n := |work| - 1;
      PunctualRun(rate, start, work[..n], oversleep[..n]);
      OnTime(rate, After(rate, start, work[..n], oversleep[..n]), work[n]);
      assert |work| * rate == n * rate + rate by { OneMore(n, rate); }
      hide Turn;
    }
  }

  lemma OnTime(rate: nat, p: Pace, work: nat)
    requires 0 < rate && work <= rate && p.now == p.t1
    ensures Turn(rate, p, work, 0) == Pace(p.ticks + 1, p.t1 + rate, p.t1 + rate)
  {
  }

  lemma OneMore(n: nat, rate: nat)
    ensures (n + 1) * rate == n * rate + rate
  {
  }

  /** How far the wall clock is past the reference time at a loop head. */
  function Lead(p: Pace): int {
    p.now - p.t1
  }

  lemma {:induction false} TurnKeepsSchedule(rate: nat, start: int, p: Pace, work: nat, oversleep: nat)
    requires 0 < rate && p.t1 == start + rate * p.ticks
    ensures Turn(rate, p, work, oversleep).t1 == start + rate * Turn(rate, p, work, oversleep).ticks
    ensures Lead(Turn(rate, p, work, oversleep)) == oversleep + if Lead(p) + work > rate then rate else 0
  {
    var behind := p.now + work - p.t1 - rate;
    if behind > 0 {
      WholePeriods(behind, rate);
      assert rate * (p.ticks + 1 + behind / rate) == rate * p.ticks + rate + rate * (behind / rate);
    } else {
      assert rate * (p.ticks + 1) == rate * p.ticks + rate;
    }
  }

  /** The loop counts a tick for every period the reference time moved, whatever the work and the oversleeping. */
  lemma {:induction false} ReferenceTimeIsTickCount(rate: nat, start: int, work: seq<nat>, oversleep: seq<nat>)
    requires 0 < rate && |work| == |oversleep|
    ensures After(rate, start, work, oversleep).t1 == start + rate * After(rate, start, work, oversleep).ticks
  {
    if work != [] {
      var n := |work| - 1;
      ReferenceTimeIsTickCount(rate, start, work[..n], oversleep[..n]);
      TurnKeepsSchedule(rate, start, After(rate, start, work[..n], oversleep[..n]), work[n], oversleep[n]);
    }
  }

  /** A turn after which the wall clock is a whole period ahead of the reference time. */
  ghost predicate Late(rate: nat, start: int, work: seq<nat>, oversleep: seq<nat>)
    requires 0 < rate && 0 < |work| == |oversleep|
  {
    var n := |work| - 1;
    Lead(After(rate, start, work[..n], oversleep[..n])) + work[n] > rate
  }

  /** Beyond the last oversleep the lead is exactly nothing or one period: however long a tick took, no debt adds up. */
  lemma {:induction false} LeadIsZeroOrOnePeriod(rate: nat, start: int, work: seq<nat>, oversleep: seq<nat>)
    requires 0 < rate && 0 < |work| == |oversleep|
    ensures Lead(After(rate, start, work, oversleep))
            == oversleep[|work| - 1] + if Late(rate, start, work, oversleep) then rate else 0
  {
    var n := |work| - 1;
    ReferenceTimeIsTickCount(rate, start, work[..n], oversleep[..n]);
    TurnKeepsSchedule(rate, start, After(rate, start, work[..n], oversleep[..n]), work[n], oversleep[n]);
  }

  /** What a turn takes: its work, and what the sleep before it took too long. */
  function Taken(work: seq<nat>, oversleep: seq<nat>, k: nat): nat
    requires k < |work| == |oversleep|
  {
    work[k] + if k > 0 then oversleep[k - 1] else 0
  }

  /** Turn j overruns its period, and none after it takes no time at all. */
  ghost predicate OverranAt(rate: nat, work: seq<nat>, oversleep: seq<nat>, j: nat)
    requires j < |work| == |oversleep|
  {
    Taken(work, oversleep, j) > rate && forall k | j < k < |work| :: Taken(work, oversleep, k) > 0
  }

  /** A turn is late when it takes more than its period, and after a late turn as soon as it takes any time. */
  lemma LateNext(rate: nat, start: int, work: seq<nat>, oversleep: seq<nat>)
    requires 0 < rate && 0 < |work| == |oversleep|
    ensures var n := |work| - 1;
            var allowed := if n > 0 && Late(rate, start, work[..n], oversleep[..n]) then 0 else rate;
            Late(rate, start, work, oversleep) <==> Taken(work, oversleep, n) > allowed
  {
    var n := |work| - 1;
    if n > 0 {
      LeadIsZeroOrOnePeriod(rate, start, work[..n], oversleep[..n]);
    }
  }

  /**
   * Once a turn has overrun, the loop runs one period late until a turn that takes no time at all: it is late exactly
   * when there was an overrun with no such turn since.
   */
  lemma {:induction false} LateSinceOverrun(rate: nat, start: int, work: seq<nat>, oversleep: seq<nat>)
    requires 0 < rate && 0 < |work| == |oversleep|
    ensures Late(rate, start, work, oversleep) <==> exists j | 0 <= j < |work| :: OverranAt(rate, work, oversleep, j)
    decreases |work|
  {
    var n := |work| - 1;
    LateNext(rate, start, work, oversleep);
    if n > 0 {
      LateSinceOverrun(rate, start, work[..n], oversleep[..n]);
      assert forall k | 0 <= k < n :: Taken(work[..n], oversleep[..n], k) == Taken(work, oversleep, k);
      if Late(rate, start, work[..n], oversleep[..n]) {
        var j :| 0 <= j < n && OverranAt(rate, work[..n], oversleep[..n], j);
        assert Taken(work, oversleep, n) > 0 ==> OverranAt(rate, work, oversleep, j);
      }
      forall j | 0 <= j < n && OverranAt(rate, work, oversleep, j)
        ensures OverranAt(rate, work[..n], oversleep[..n], j) && Taken(work, oversleep, n) > 0
      {
      }
    }
    assert OverranAt(rate, work, oversleep, n) <==> Taken(work, oversleep, n) > rate;
  }
}
