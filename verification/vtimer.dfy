/**
 * VTimer: a virtual timer driven by the times its owner passes to Update.
 * The first Update arms it (next expiry = time + period, never 0); later
 * Updates at or past the expiry call the callback with the current time and
 * set the next expiry a period after that time. The callback is modelled as
 * a log of the times it was called with.
 */
module VirtualTimer {

  /** An Update at time `t` calls the callback: the timer is armed and `t` has reached the expiry. */
  predicate Fires(next: nat, t: nat) {
    next != 0 && t >= next
  }

  /** m_nextExpiryTime after an Update at time `t`. */
  function NextExpiry(next: nat, period: nat, t: nat): (n: nat)
    ensures n != 0
    ensures n >= next && n >= t
    ensures next == 0 ==> n == if t + period == 0 then 1 else t + period
    ensures next != 0 && !Fires(next, t) ==> n == next
    ensures Fires(next, t) ==> n == t + period
  {
    if next == 0 then
      if t + period == 0 then 1 else t + period
    else if t >= next then t + period
    else next
  }

  /** For each Update of a sequence, whether it called the callback. */
  function Replay(next: nat, period: nat, times: seq<nat>): (calls: seq<bool>)
    ensures |calls| == |times|
    decreases |times|
  {
    if times == [] then []
    else [Fires(next, times[0])] + Replay(NextExpiry(next, period, times[0]), period, times[1..])
  }

  /** The times of `times` whose entry in `calls` is true, in order. */
  function Selected(times: seq<nat>, calls: seq<bool>): seq<nat>
    requires |calls| == |times|
    decreases |times|
  {
    if times == [] then []
    else (if calls[0] then [times[0]] else []) + Selected(times[1..], calls[1..])
  }

  /** The times the callback is called with during a sequence of Updates. */
  function Firings(next: nat, period: nat, times: seq<nat>): seq<nat>
    decreases |times|
  {
    if times == [] then []
    else (if Fires(next, times[0]) then [times[0]] else [])
         + Firings(NextExpiry(next, period, times[0]), period, times[1..])
  }

  /** m_nextExpiryTime after a sequence of Updates. */
  function FinalExpiry(next: nat, period: nat, times: seq<nat>): nat
    decreases |times|
  {
    if times == [] then next
    else FinalExpiry(NextExpiry(next, period, times[0]), period, times[1..])
  }

  /** Updates can be replayed in two parts: the second starts from the expiry the first leaves behind. */
  lemma {:induction false} FiringsAppend(next: nat, period: nat, a: seq<nat>, b: seq<nat>)
    ensures Firings(next, period, a + b)
            == Firings(next, period, a) + Firings(FinalExpiry(next, period, a), period, b)
    decreases |a|
  {
    if a != [] {
      var n := NextExpiry(next, period, a[0]);
      assert (a + b)[0] == a[0] && (a + b)[1..] == a[1..] + b;
      FiringsAppend(n, period, a[1..], b);
    } else {
      assert a + b == b;
    }
  }

  /** Each firing is at or after `lower`, and the next one at least a period after it. */
  predicate Spaced(fs: seq<nat>, period: nat, lower: nat)
    decreases |fs|
  {
    fs == [] || (fs[0] >= lower && Spaced(fs[1..], period, fs[0] + period))
  }

  /** An armed timer fires no earlier than its expiry, and then no sooner than a period after the previous firing. */
  lemma {:induction false} FiringsSpaced(next: nat, period: nat, times: seq<nat>)
    requires next != 0
    ensures Spaced(Firings(next, period, times), period, next)
    decreases |times|
  {
    if times != [] {
      var t, rest := times[0], times[1..];
      FiringsSpaced(NextExpiry(next, period, t), period, rest);
      if Fires(next, t) {
        var later := Firings(t + period, period, rest);
        assert Firings(next, period, times) == [t] + later;
        assert ([t] + later)[1..] == later;
      } else {
        assert Firings(next, period, times) == Firings(next, period, rest);
      }
    }
  }

  /** An Update at time 0 never calls the callback, whatever came before: no call is at time 0. */
  lemma {:induction false} ZeroTimeNeverFires(next: nat, period: nat, times: seq<nat>)
    ensures forall i | 0 <= i < |times| && times[i] == 0 :: !Replay(next, period, times)[i]
    ensures 0 !in Firings(next, period, times)
    decreases |times|
  {
    if times != [] {
      var rest := times[1..];
      ZeroTimeNeverFires(NextExpiry(next, period, times[0]), period, rest);
      forall i | 1 <= i < |times| && times[i] == 0
        ensures !Replay(next, period, times)[i]
      {
        assert rest[i - 1] == 0;
      }
    }
  }

  /** An Update at a time earlier than the previous Update's never calls the callback. */
  lemma {:induction false} BackwardsNeverFires(next: nat, period: nat, times: seq<nat>)
    ensures forall i | 0 < i < |times| && times[i] < times[i - 1] :: !Replay(next, period, times)[i]
    decreases |times|
  {
    if times != [] {
      var n, rest := NextExpiry(next, period, times[0]), times[1..];
      BackwardsNeverFires(n, period, rest);
      forall i | 0 < i < |times| && times[i] < times[i - 1]
        ensures !Replay(next, period, times)[i]
      {
        assert Replay(next, period, times)[i] == Replay(n, period, rest)[i - 1];
        if i == 1 {
          assert Replay(n, period, rest)[0] == Fires(n, rest[0]);
        } else {
          assert rest[i - 1] < rest[i - 2];
        }
      }
    }
  }

  /** The callback is called with exactly the times of the Updates that fire, in order. */
  lemma {:induction false} FiringsAreReplayed(next: nat, period: nat, times: seq<nat>)
    ensures Firings(next, period, times) == Selected(times, Replay(next, period, times))
    decreases |times|
  {
    if times != [] {
      var calls := Replay(next, period, times);
      FiringsAreReplayed(NextExpiry(next, period, times[0]), period, times[1..]);
      assert calls[0] == Fires(next, times[0]);
      assert calls[1..] == Replay(NextExpiry(next, period, times[0]), period, times[1..]);
    }
  }

  /** Updates can be replayed in two parts, as for the firings. */
  lemma {:induction false} ReplayAppend(next: nat, period: nat, a: seq<nat>, b: seq<nat>)
    ensures Replay(next, period, a + b)
            == Replay(next, period, a) + Replay(FinalExpiry(next, period, a), period, b)
    decreases |a|
  {
    if a != [] {
      assert (a + b)[0] == a[0] && (a + b)[1..] == a[1..] + b;
      ReplayAppend(NextExpiry(next, period, a[0]), period, a[1..], b);
    } else {
      assert a + b == b;
    }
  }

  /** The period-10 trace of the timer test: firings at 11, 21, 34 and 44. */
  lemma PeriodTenTrace()
    ensures Firings(0, 10, [1, 3, 2, 3, 10, 11, 21, 34, 41, 43, 44, 44, 44, 53]) == [11, 21, 34, 44]
  {
    PeriodTenEarly();
    PeriodTenLate();
    FiringsAppend(0, 10, [1, 3, 2, 3, 10, 11, 21], [34, 41, 43, 44, 44, 44, 53]);
    PeriodTenJoin();
  }

  lemma PeriodTenJoin()
    ensures [1, 3, 2, 3, 10, 11, 21] + [34, 41, 43, 44, 44, 44, 53]
            == [1, 3, 2, 3, 10, 11, 21, 34, 41, 43, 44, 44, 44, 53]
    ensures [11, 21] + [34, 44] == [11, 21, 34, 44]
  {
  }

  lemma PeriodTenEarly()
    ensures Firings(0, 10, [1, 3, 2, 3, 10, 11, 21]) == [11, 21]
    ensures FinalExpiry(0, 10, [1, 3, 2, 3, 10, 11, 21]) == 31
  {
  }

  lemma PeriodTenLate()
    ensures Firings(31, 10, [34, 41, 43, 44, 44, 44, 53]) == [34, 44]
  {
  }

  /** The period-0 trace of the timer test: the 3rd, 5th, 6th, 7th and 9th Updates fire. */
  lemma PeriodZeroTrace()
    ensures Replay(0, 0, [0, 0, 1, 0, 1, 2, 2, 1, 2])
            == [false, false, true, false, true, true, true, false, true]
  {
    PeriodZeroEarly();
    PeriodZeroLate();
    ReplayAppend(0, 0, [0, 0, 1, 0], [1, 2, 2, 1, 2]);
    PeriodZeroJoin();
  }

  lemma PeriodZeroJoin()
    ensures [0, 0, 1, 0] + [1, 2, 2, 1, 2] == [0, 0, 1, 0, 1, 2, 2, 1, 2]
    ensures [false, false, true, false] + [true, true, true, false, true]
            == [false, false, true, false, true, true, true, false, true]
  {
  }

  lemma PeriodZeroEarly()
    ensures Replay(0, 0, [0, 0, 1, 0]) == [false, false, true, false]
    ensures FinalExpiry(0, 0, [0, 0, 1, 0]) == 1
  {
  }

  lemma PeriodZeroLate()
    ensures Replay(1, 0, [1, 2, 2, 1, 2]) == [true, true, true, false, true]
  {
  }

  class VTimer {
    var nextExpiryTime: nat
    const period: nat
    /** The times the callback has been called with, oldest first. */
    ghost var Calls: seq<nat>

    /** VTimer(callback, period): not armed yet. */
    constructor (p: nat)
      ensures period == p && nextExpiryTime == 0 && Calls == []
    {
      period := p;
      nextExpiryTime := 0;
      Calls := [];
    }

    /**
     * Update(currentTime): arms the timer the first time; afterwards calls
     * the callback with `t` and re-arms a period later when `t` has reached
     * the expiry, and otherwise changes nothing.
     */
    method Update(t: nat)
      modifies this
      ensures nextExpiryTime == NextExpiry(old(nextExpiryTime), period, t)
      ensures Calls == old(Calls) + Firings(old(nextExpiryTime), period, [t])
    {
      if nextExpiryTime == 0 {
        if t + period == 0 {
          nextExpiryTime := 1;
        } else {
          nextExpiryTime := t + period;
        }
      } else if t >= nextExpiryTime {
        nextExpiryTime := t + period;
        Calls := Calls + [t];
      }
    }
  }
}
