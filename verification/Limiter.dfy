/** The in-memory sliding-window limiter. Times are nanoseconds; estimates are reals. */
module Limiter {
  import opened Wrappers

  datatype Window = Window(start: int, count: nat, prev: nat)

  datatype Decision = Decision(allowed: bool, limit: int, remaining: int, retryAfter: int)

  /** Keep one generation of history, so the estimate slides across a boundary. */
  function Roll(w: Window, now: int, dur: int): Window {
    var elapsed := now - w.start;
    if elapsed >= 2 * dur then Window(now, 0, 0)
    else if elapsed >= dur then Window(w.start + dur, 0, w.count)
    else w
  }

  function Fraction(w: Window, now: int, dur: int): real
    requires dur > 0
  {
    var frac := (dur - (now - w.start)) as real / dur as real;
    if frac < 0.0 then 0.0 else frac
  }

  /** The sliding estimate read off a window already rolled to `now`. */
  function Estimate(w: Window, now: int, dur: int): real
    requires dur > 0
  {
    w.prev as real * Fraction(w, now, dur) + w.count as real
  }

  /** One call on the window of one key. */
  function Step(found: Option<Window>, now: int, limit: int, dur: int): (Window, Decision)
    requires dur > 0
  {
    var w := Roll(if found.Some? then found.value else Window(now, 0, 0), now, dur);
    Settled(w, Estimate(w, now, dur).Floor, now, limit, dur)
  }

  /** The decision on a rolled window whose estimate truncates to `used`. */
  function Settled(w: Window, used: int, now: int, limit: int, dur: int): (Window, Decision) {
    if used >= limit then
      var retry := dur - (now - w.start);
      (w, Decision(false, limit, 0, if retry < 0 then dur else retry))
    else
      var remaining := limit - used - 1;
      (w.(count := w.count + 1), Decision(true, limit, if remaining < 0 then 0 else remaining, 0))
  }

  type Cache = map<string, Window>

  function Get(cache: Cache, key: string): Option<Window> {
    if key in cache then Some(cache[key]) else None
  }

  class MemoryLimiter {
    var cache: Cache

    constructor ()
      ensures cache == map[]
    {
      cache := map[];
    }

    /** `Allow`: one key's window steps, every other key is untouched. */
    method Allow(now: int, key: string, limit: int, dur: int) returns (d: Decision)
      requires dur > 0
      modifies this
      ensures cache == old(cache)[key := Step(Get(old(cache), key), now, limit, dur).0]
      ensures d == Step(Get(old(cache), key), now, limit, dur).1
    {
      ghost var step := Step(Get(cache, key), now, limit, dur);
      if key !in cache {
        cache := cache[key := Window(now, 0, 0)];
      }
      var w := cache[key];
      var elapsed := now - w.start;
      if elapsed >= 2 * dur {
        w := Window(now, 0, 0);
      } else if elapsed >= dur {
        w := Window(w.start + dur, 0, w.count);
      }
      cache := cache[key := w];
      var frac := (dur - (now - w.start)) as real / dur as real;
      if frac < 0.0 {
        frac := 0.0;
      }
      assert frac == Fraction(w, now, dur);
      var estimate := w.prev as real * frac + w.count as real;
      assert estimate == Estimate(w, now, dur);
      assert step == Settled(w, estimate.Floor, now, limit, dur);
      if estimate.Floor >= limit {
        var retry := dur - (now - w.start);
        if retry < 0 {
          retry := dur;
        }
        return Decision(false, limit, 0, retry);
      }
      cache := cache[key := w.(count := w.count + 1)];
      var remaining := limit - estimate.Floor - 1;
      if remaining < 0 {
        remaining := 0;
      }
      return Decision(true, limit, remaining, 0);
    }
  }

  // ---- the estimate as a function of time ----

  /** What a window makes of any later time, rolled or not: full weight inside the window,
      fading over the next one, then nothing. */
  function EstimateAt(w: Window, t: int, dur: int): real
    requires dur > 0
  {
    var e := t - w.start;
    if e < dur then Estimate(w, t, dur)
    else if e < 2 * dur then w.count as real * ((2 * dur - e) as real / dur as real)
    else 0.0
  }

  /** Rolling and resetting are invisible. */
  lemma RollInvisible(w: Window, now: int, t: int, dur: int)
    requires dur > 0 && w.start <= now <= t
    ensures EstimateAt(Roll(w, now, dur), t, dur) == EstimateAt(w, t, dur)
    ensures Estimate(Roll(w, now, dur), now, dur) == EstimateAt(w, now, dur)
  {
  }

  /** Between admissions the estimate only falls. */
  lemma EstimateFalls(w: Window, s: int, t: int, dur: int)
    requires dur > 0 && w.start <= s <= t
    ensures EstimateAt(w, t, dur) <= EstimateAt(w, s, dur)
  {
    var es, et := s - w.start, t - w.start;
    if et < dur {
      FallsInside(w, s, t, dur);
    } else if es >= dur && et < 2 * dur {
      FallsOutside(w, s, t, dur);
    } else {
      FadesBelow(w, t, dur);
      StaysAbove(w, s, dur);
    }
  }

  lemma FallsInside(w: Window, s: int, t: int, dur: int)
    requires dur > 0 && w.start <= s <= t < w.start + dur
    ensures EstimateAt(w, t, dur) <= EstimateAt(w, s, dur)
  {
    DivMono(dur - (t - w.start), dur - (s - w.start), dur);
    MulMono(w.prev as real, Fraction(w, t, dur), Fraction(w, s, dur));
  }

  lemma FallsOutside(w: Window, s: int, t: int, dur: int)
    requires dur > 0 && w.start + dur <= s <= t < w.start + 2 * dur
    ensures EstimateAt(w, t, dur) <= EstimateAt(w, s, dur)
  {
    var es, et := s - w.start, t - w.start;
    DivMono(2 * dur - et, 2 * dur - es, dur);
    MulMono(w.count as real, (2 * dur - et) as real / dur as real, (2 * dur - es) as real / dur as real);
  }

  /** Past its window a count weighs at most itself; before that, at least itself. */
  lemma FadesBelow(w: Window, t: int, dur: int)
    requires dur > 0 && t - w.start >= dur
    ensures EstimateAt(w, t, dur) <= w.count as real
    ensures t - w.start >= 2 * dur ==> EstimateAt(w, t, dur) == 0.0
  {
    var e := t - w.start;
    if e < 2 * dur {
      DivMono(2 * dur - e, dur, dur);
      MulMono(w.count as real, (2 * dur - e) as real / dur as real, 1.0);
    }
  }

  lemma StaysAbove(w: Window, s: int, dur: int)
    requires dur > 0 && s >= w.start
    ensures EstimateAt(w, s, dur) >= 0.0
    ensures s - w.start < dur ==> EstimateAt(w, s, dur) >= w.count as real
  {
    var e := s - w.start;
    if e < dur {
      MulMono(w.prev as real, 0.0, Fraction(w, s, dur));
    } else if e < 2 * dur {
      DivMono(0, 2 * dur - e, dur);
      MulMono(w.count as real, 0.0, (2 * dur - e) as real / dur as real);
    }
  }

  lemma DivMono(a: int, b: int, dur: int)
    requires dur > 0 && a <= b
    ensures a as real / dur as real <= b as real / dur as real
    ensures dur as real / dur as real == 1.0
  {
  }

  lemma MulMono(n: real, x: real, y: real)
    requires n >= 0.0 && x <= y
    ensures n * x <= n * y
  {
  }

  // ---- runs of calls on one key, with its limit and window fixed ----

  /** An admitted call: when, and the start of the window it was counted in. */
  datatype Admission = Admission(time: int, window: int)

  datatype History = History(w: Option<Window>, log: seq<Admission>)

  /** A history one call later. */
  function Called(h: History, now: int, limit: int, dur: int): History
    requires dur > 0
  {
    var (w, d) := Step(h.w, now, limit, dur);
    History(Some(w), if d.allowed then h.log + [Admission(now, w.start)] else h.log)
  }

  function After(times: seq<int>, limit: int, dur: int): History
    requires dur > 0
  {
    if times == [] then History(None, [])
    else
      Called(After(times[..|times| - 1], limit, dur), times[|times| - 1], limit, dur)
  }

  predicate Ordered(times: seq<int>) {
    forall i, j | 0 <= i < j < |times| :: times[i] <= times[j]
  }

  /** Admissions counted in the window that starts at `start`. */
  function InWindow(log: seq<Admission>, start: int): nat {
    if log == [] then 0
    else InWindow(log[..|log| - 1], start) + if log[|log| - 1].window == start then 1 else 0
  }

  /** Admissions at times in [from, to). */
  function InSpan(log: seq<Admission>, from: int, to: int): nat {
    if log == [] then 0
    else InSpan(log[..|log| - 1], from, to) + if from <= log[|log| - 1].time < to then 1 else 0
  }

  function Cap(limit: int): nat {
    if limit < 0 then 0 else limit
  }

  predicate LogRight(log: seq<Admission>, dur: int) {
    && (forall a | a in log :: a.window <= a.time < a.window + dur)
    && (forall i, j | 0 <= i < j < |log| :: log[i].window == log[j].window || log[i].window + dur <= log[j].window)
  }

  /** What holds after every call, the last of them at `now`. */
  ghost predicate Kept(h: History, now: int, limit: int, dur: int)
    requires dur > 0
  {
    && h.w.Some? && h.w.value.start <= now
    && LogRight(h.log, dur)
    && (forall a | a in h.log :: a.window == h.w.value.start || a.window + dur <= h.w.value.start)
    && h.w.value.count == InWindow(h.log, h.w.value.start)
    && (forall start :: InWindow(h.log, start) <= Cap(limit))
    && EstimateAt(h.w.value, now, dur) < Cap(limit) as real + 1.0
  }

  lemma NoneInWindow(log: seq<Admission>, start: int)
    requires forall a | a in log :: a.window != start
    ensures InWindow(log, start) == 0
  {
    if log != [] {
      NoneInWindow(log[..|log| - 1], start);
    }
  }

  lemma LogPush(log: seq<Admission>, a: Admission, start: int)
    ensures InWindow(log + [a], start) == InWindow(log, start) + if a.window == start then 1 else 0
  {
    assert (log + [a])[..|log|] == log;
  }

  /** Rolling keeps the books: a window that moved on has nothing counted yet. */
  lemma RollKeeps(h: History, before: int, now: int, limit: int, dur: int)
    requires dur > 0 && Kept(h, before, limit, dur) && before <= now
    ensures Kept(History(Some(Roll(h.w.value, now, dur)), h.log), now, limit, dur)
    ensures Roll(h.w.value, now, dur).start <= now < Roll(h.w.value, now, dur).start + dur
  {
    var w, r := h.w.value, Roll(h.w.value, now, dur);
    RollInvisible(w, now, now, dur);
    EstimateFalls(w, before, now, dur);
    if r != w {
      NoneInWindow(h.log, r.start);
    }
  }

  lemma CallKeeps(h: History, before: int, now: int, limit: int, dur: int)
    requires dur > 0 && Kept(h, before, limit, dur) && before <= now
    ensures var (w, d) := Step(h.w, now, limit, dur);
      Kept(History(Some(w), if d.allowed then h.log + [Admission(now, w.start)] else h.log), now, limit, dur)
  {
    RollKeeps(h, before, now, limit, dur);
    SettledKeeps(h.log, Roll(h.w.value, now, dur), now, limit, dur);
  }

  lemma SettledKeeps(log: seq<Admission>, r: Window, now: int, limit: int, dur: int)
    requires dur > 0 && Kept(History(Some(r), log), now, limit, dur) && r.start <= now < r.start + dur
    ensures var (w, d) := Settled(r, Estimate(r, now, dur).Floor, now, limit, dur);
      Kept(History(Some(w), if d.allowed then log + [Admission(now, w.start)] else log), now, limit, dur)
  {
    AdmitKeeps(log, r, now, limit, dur);
  }

  lemma AdmitKeeps(log: seq<Admission>, w: Window, now: int, limit: int, dur: int)
    requires dur > 0 && Kept(History(Some(w), log), now, limit, dur) && w.start <= now < w.start + dur
    ensures var estimate := Estimate(w, now, dur);
      estimate.Floor < limit ==>
        Kept(History(Some(w.(count := w.count + 1)), log + [Admission(now, w.start)]), now, limit, dur)
  {
    if Estimate(w, now, dur).Floor < limit {
      AdmitStaysBounded(w, now, limit, dur);
      AdmitIsLogged(log, w, now, limit, dur);
    }
  }

  lemma OneMoreCounted(w: Window, now: int, dur: int)
    requires dur > 0
    ensures Estimate(w.(count := w.count + 1), now, dur) == Estimate(w, now, dur) + 1.0
  {
  }

  lemma AdmitStaysBounded(w: Window, now: int, limit: int, dur: int)
    requires dur > 0 && w.start <= now < w.start + dur && Estimate(w, now, dur).Floor < limit
    ensures EstimateAt(w.(count := w.count + 1), now, dur) < Cap(limit) as real + 1.0
    ensures w.count < Cap(limit)
  {
    OneMoreCounted(w, now, dur);
    StaysAbove(w, now, dur);
    FloorBounds(Estimate(w, now, dur), w.count, limit);
  }

  lemma FloorBounds(e: real, count: nat, limit: int)
    requires e >= count as real && e.Floor < limit
    ensures count < limit && e < limit as real
  {
  }

  lemma AdmitIsLogged(log: seq<Admission>, w: Window, now: int, limit: int, dur: int)
    requires LogRight(log, dur) && w.start <= now < w.start + dur && w.count < Cap(limit)
    requires forall a | a in log :: a.window == w.start || a.window + dur <= w.start
    requires w.count == InWindow(log, w.start) && forall start :: InWindow(log, start) <= Cap(limit)
    ensures var more := log + [Admission(now, w.start)];
      && LogRight(more, dur) && InWindow(more, w.start) == w.count + 1
      && (forall a | a in more :: a.window == w.start || a.window + dur <= w.start)
      && forall start :: InWindow(more, start) <= Cap(limit)
  {
    var a := Admission(now, w.start);
    forall start ensures InWindow(log + [a], start) <= Cap(limit) {
      LogPush(log, a, start);
    }
    LogPush(log, a, w.start);
  }

  /** The invariant of every run whose clock never goes back. */
  lemma {:induction false} RunsKeep(times: seq<int>, limit: int, dur: int)
    requires dur > 0 && times != [] && Ordered(times)
    ensures Kept(After(times, limit, dur), times[|times| - 1], limit, dur)
  {
    var now := times[|times| - 1];
    var earlier := times[..|times| - 1];
    if earlier == [] {
      FirstCallKeeps(now, limit, dur);
      assert times == [now];
    } else {
      RunsKeep(earlier, limit, dur);
      CallKeeps(After(earlier, limit, dur), earlier[|earlier| - 1], now, limit, dur);
    }
  }

  lemma FirstCallKeeps(now: int, limit: int, dur: int)
    requires dur > 0
    ensures Kept(After([now], limit, dur), now, limit, dur)
  {
    var w := Window(now, 0, 0);
    assert [now][..0] == [];
    assert Estimate(w, now, dur) == 0.0;
    assert Kept(History(Some(w), []), now, limit, dur);
    SettledKeeps([], w, now, limit, dur);
  }

  // ---- the bounds ----

  /** The estimate never reaches limit + 1, at the last call or at any time after it. */
  lemma EstimateBounded(times: seq<int>, limit: int, dur: int, t: int)
    requires dur > 0 && times != [] && Ordered(times) && times[|times| - 1] <= t
    ensures EstimateAt(After(times, limit, dur).w.value, t, dur) < Cap(limit) as real + 1.0
  {
    RunsKeep(times, limit, dur);
    EstimateFalls(After(times, limit, dur).w.value, times[|times| - 1], t, dur);
  }

  /** No window admits more than the limit. */
  lemma WindowBounded(times: seq<int>, limit: int, dur: int, start: int)
    requires dur > 0 && Ordered(times)
    ensures InWindow(After(times, limit, dur).log, start) <= Cap(limit)
  {
    if times != [] {
      RunsKeep(times, limit, dur);
    }
  }

  /** Every admission in a span shorter than two windows lies in the first window or the last. */
  lemma {:induction false} SpanOfTwo(log: seq<Admission>, dur: int, from: int, to: int, first: int, last: int)
    requires forall a | a in log && from <= a.time < to :: a.window == first || a.window == last
    ensures InSpan(log, from, to) <= InWindow(log, first) + InWindow(log, last)
  {
    if log != [] {
      assert forall a | a in log[..|log| - 1] :: a in log;
      assert log[|log| - 1] in log;
      SpanOfTwo(log[..|log| - 1], dur, from, to, first, last);
    }
  }

  /** Windows are a window length apart, so a span of one length meets at most two. */
  lemma AtMostTwoWindows(log: seq<Admission>, dur: int, from: int) returns (first: int, last: int)
    requires dur > 0 && LogRight(log, dur)
    ensures forall a | a in log && from <= a.time < from + dur :: a.window == first || a.window == last
  {
    first, last := 0, 0;
    if i: int :| 0 <= i < |log| && from <= log[i].time < from + dur {
      // any other window the span meets lies on one side of this one
      first, last := log[i].window, log[i].window;
      if j: int :| 0 <= j < |log| && from <= log[j].time < from + dur && log[j].window != log[i].window {
        last := log[j].window;
        forall a | a in log && from <= a.time < from + dur ensures a.window == first || a.window == last {
          var k :| 0 <= k < |log| && log[k] == a;
          assert log[i] in log && log[j] in log;
        }
      }
    }
  }

  /** Any half-open span of one window length admits at most twice the limit. */
  lemma SpanBounded(times: seq<int>, limit: int, dur: int, from: int)
    requires dur > 0 && Ordered(times)
    ensures InSpan(After(times, limit, dur).log, from, from + dur) <= 2 * Cap(limit)
  {
    if times != [] {
      RunsKeep(times, limit, dur);
      TwoWindowsHold(After(times, limit, dur).log, limit, dur, from);
    }
  }

  lemma TwoWindowsHold(log: seq<Admission>, limit: int, dur: int, from: int)
    requires dur > 0 && LogRight(log, dur) && forall start :: InWindow(log, start) <= Cap(limit)
    ensures InSpan(log, from, from + dur) <= 2 * Cap(limit)
  {
    var first, last := AtMostTwoWindows(log, dur, from);
    SpanOfTwo(log, dur, from, from + dur, first, last);
    assert InWindow(log, first) <= Cap(limit) && InWindow(log, last) <= Cap(limit);
  }

  // ---- twice the limit is reached ----

  function Repeat<A>(x: A, n: nat): seq<A> {
    seq(n, _ => x)
  }

  lemma OneFirst<A>(s: seq<A>, x: A, n: nat)
    requires n > 0
    ensures s + Repeat(x, n) == (s + [x]) + Repeat(x, n - 1)
  {
  }

  lemma NoMore<A>(s: seq<A>, x: A)
    ensures s + Repeat(x, 0) == s
  {
  }

  function CalledTimes(h: History, now: int, limit: int, dur: int, n: nat): History
    requires dur > 0
    decreases n
  {
    if n == 0 then h else CalledTimes(Called(h, now, limit, dur), now, limit, dur, n - 1)
  }

  lemma {:induction false} AfterRepeat(times: seq<int>, now: int, limit: int, dur: int, n: nat)
    requires dur > 0
    ensures After(times + Repeat(now, n), limit, dur) == CalledTimes(After(times, limit, dur), now, limit, dur, n)
    decreases n
  {
    if n == 0 {
      NoMore(times, now);
    } else {
      OneFirst(times, now, n);
      assert (times + [now])[..|times|] == times;
      AfterRepeat(times + [now], now, limit, dur, n - 1);
    }
  }

  lemma CalledAdmits(h: History, w: Window, now: int, limit: int, dur: int, room: nat) returns (more: Window)
    requires dur > 0 && h.w.Some? && w == Roll(h.w.value, now, dur)
    requires room > 0 && Estimate(w, now, dur).Floor + room <= limit
    ensures more == w.(count := w.count + 1) && Estimate(more, now, dur).Floor + room - 1 <= limit
    ensures Called(h, now, limit, dur) == History(Some(more), h.log + [Admission(now, w.start)])
  {
    EstimateCounts(w, now, dur, 1);
    more := w.(count := w.count + 1);
  }

  /** Calls at one instant are all admitted while the estimate leaves room for them. */
  lemma {:induction false} BurstOn(h: History, w: Window, now: int, limit: int, dur: int, n: nat)
    requires dur > 0 && h.w == Some(w) && w.start <= now < w.start + dur
    requires Estimate(w, now, dur).Floor + n <= limit
    ensures CalledTimes(h, now, limit, dur, n)
         == History(Some(w.(count := w.count + n)), h.log + Repeat(Admission(now, w.start), n))
    decreases n
  {
    if n == 0 {
      NoMore(h.log, Admission(now, w.start));
    } else {
      BurstRolled(h, w, now, limit, dur, n);
    }
  }

  /** The same from a window the first of the calls rolls. */
  lemma BurstRolled(h: History, r: Window, now: int, limit: int, dur: int, n: nat)
    requires dur > 0 && n > 0 && h.w.Some? && r == Roll(h.w.value, now, dur) && r.start <= now < r.start + dur
    requires Estimate(r, now, dur).Floor + n <= limit
    ensures CalledTimes(h, now, limit, dur, n)
         == History(Some(r.(count := r.count + n)), h.log + Repeat(Admission(now, r.start), n))
    decreases n, 0
  {
    var a := Admission(now, r.start);
    var more := CalledAdmits(h, r, now, limit, dur, n);
    BurstOn(History(Some(more), h.log + [a]), more, now, limit, dur, n - 1);
    OneFirst(h.log, a, n);
  }

  lemma {:induction false} BurstInSpan(log: seq<Admission>, a: Admission, n: nat, from: int, to: int)
    requires from <= a.time < to
    ensures InSpan(log + Repeat(a, n), from, to) == InSpan(log, from, to) + n
    decreases n
  {
    if n == 0 {
      NoMore(log, a);
    } else {
      OneFirst(log, a, n);
      SpanPush(log, a, from, to);
      BurstInSpan(log + [a], a, n - 1, from, to);
    }
  }

  lemma SpanPush(log: seq<Admission>, a: Admission, from: int, to: int)
    ensures InSpan(log + [a], from, to) == InSpan(log, from, to) + if from <= a.time < to then 1 else 0
  {
    assert (log + [a])[..|log|] == log;
  }

  /** One call to start a window, the limit at the end of the next one, the limit again near
      the end of the one after that. */
  function BusySpan(limit: nat, dur: int): seq<int> {
    [0] + Repeat(2 * dur - 1, limit) + Repeat(3 * dur - 2, limit)
  }

  lemma SmallShare(n: nat, x: int, dur: int)
    requires 0 <= n * x < dur
    ensures 0.0 <= n as real * (x as real / dur as real) < 1.0
  {
    assert n as real * (x as real / dur as real) == (n * x) as real / dur as real;
  }

  /** A window that counted nothing yet, its past worth less than one call. */
  lemma NothingUsed(w: Window, now: int, dur: int)
    requires dur > 0 && w.count == 0 && 0 <= w.prev * (dur - (now - w.start)) < dur && w.start <= now <= w.start + dur
    ensures Estimate(w, now, dur).Floor == 0
  {
    var x := dur - (now - w.start);
    SmallShare(w.prev, x, dur);
    DivMono(0, x, dur);
    UnitFloor(w.prev as real * (x as real / dur as real));
  }

  lemma UnitFloor(e: real)
    requires 0.0 <= e < 1.0
    ensures (e + 0.0).Floor == 0
  {
  }

  lemma SecondBurst(limit: nat, dur: int)
    requires limit > 0 && dur > 2 * limit
    ensures CalledTimes(History(Some(Window(0, 1, 0)), [Admission(0, 0)]), 2 * dur - 1, limit, dur, limit)
         == History(Some(Window(dur, limit, 1)), [Admission(0, 0)] + Repeat(Admission(2 * dur - 1, dur), limit))
  {
    NothingUsed(Window(dur, 0, 1), 2 * dur - 1, dur);
    BurstRolled(History(Some(Window(0, 1, 0)), [Admission(0, 0)]), Window(dur, 0, 1), 2 * dur - 1, limit, dur, limit);
  }

  lemma ThirdBurst(log: seq<Admission>, limit: nat, dur: int)
    requires limit > 0 && dur > 2 * limit
    ensures CalledTimes(History(Some(Window(dur, limit, 1)), log), 3 * dur - 2, limit, dur, limit)
         == History(Some(Window(2 * dur, limit, limit)), log + Repeat(Admission(3 * dur - 2, 2 * dur), limit))
  {
    NothingUsed(Window(2 * dur, 0, limit), 3 * dur - 2, dur);
    BurstRolled(History(Some(Window(dur, limit, 1)), log), Window(2 * dur, 0, limit), 3 * dur - 2, limit, dur, limit);
  }

  lemma BusyLog(limit: nat, dur: int)
    requires limit > 0 && dur > 2 * limit
    ensures After(BusySpan(limit, dur), limit, dur).log
         == [Admission(0, 0)] + Repeat(Admission(2 * dur - 1, dur), limit)
            + Repeat(Admission(3 * dur - 2, 2 * dur), limit)
  {
    FirstAdmitted(limit, dur);
    AfterRepeat([0], 2 * dur - 1, limit, dur, limit);
    AfterRepeat([0] + Repeat(2 * dur - 1, limit), 3 * dur - 2, limit, dur, limit);
    SecondBurst(limit, dur);
    ThirdBurst([Admission(0, 0)] + Repeat(Admission(2 * dur - 1, dur), limit), limit, dur);
  }

  /** The bound of `SpanBounded` is met, for every limit, once the window is long enough to
      hold the calls. */
  lemma SpanBoundReached(limit: nat, dur: int)
    requires limit > 0 && dur > 2 * limit
    ensures Ordered(BusySpan(limit, dur))
    ensures InSpan(After(BusySpan(limit, dur), limit, dur).log, 2 * dur - 1, 3 * dur - 1) == 2 * limit
  {
    var from, to := 2 * dur - 1, 3 * dur - 1;
    BusyLog(limit, dur);
    var log := [Admission(0, 0)];
    assert log[..0] == [];
    BurstInSpan(log, Admission(2 * dur - 1, dur), limit, from, to);
    BurstInSpan(log + Repeat(Admission(2 * dur - 1, dur), limit), Admission(3 * dur - 2, 2 * dur), limit, from, to);
  }

  lemma FirstAdmitted(limit: nat, dur: int)
    requires limit > 0 && dur > 0
    ensures After([0], limit, dur) == History(Some(Window(0, 1, 0)), [Admission(0, 0)])
  {
    assert [0][..0] == [];
    assert Estimate(Window(0, 0, 0), 0, dur) == 0.0;
    assert [] + [Admission(0, 0)] == [Admission(0, 0)];
  }

  // ---- what a decision reports ----

  /** The window after `n` more calls at the same instant. */
  function Again(w: Window, now: int, limit: int, dur: int, n: nat): Window
    requires dur > 0
  {
    if n == 0 then w else Step(Some(Again(w, now, limit, dur, n - 1)), now, limit, dur).0
  }

  /** `Remaining` is exact: that many further calls at the same instant are admitted, each
      reporting one less, and the next is refused. */
  lemma RemainingExact(found: Option<Window>, now: int, limit: int, dur: int, n: nat)
    requires dur > 0 && (found.Some? ==> found.value.start <= now)
    requires Step(found, now, limit, dur).1.allowed && n <= Step(found, now, limit, dur).1.remaining
    ensures var (w, d) := Step(found, now, limit, dur);
      var next := Step(Some(Again(w, now, limit, dur, n)), now, limit, dur).1;
      if n < d.remaining then next.allowed && next.remaining == d.remaining - 1 - n else !next.allowed
  {
    var r := Roll(if found.Some? then found.value else Window(now, 0, 0), now, dur);
    var (w, d) := Step(found, now, limit, dur);
    assert w == r.(count := r.count + 1) && d.remaining == limit - Estimate(r, now, dur).Floor - 1;
    AgainCounts(r, now, limit, dur, n);
    EstimateCounts(r, now, dur, 1 + n);
  }

  lemma EstimateCounts(r: Window, now: int, dur: int, n: nat)
    requires dur > 0
    ensures Estimate(r.(count := r.count + n), now, dur).Floor == Estimate(r, now, dur).Floor + n
  {
    var whole := Estimate(r, now, dur);
    assert Estimate(r.(count := r.count + n), now, dur) == whole + n as real;
    assert (whole + n as real).Floor == whole.Floor + n;
  }

  lemma {:induction false} AgainCounts(r: Window, now: int, limit: int, dur: int, n: nat)
    requires dur > 0 && r.start <= now < r.start + dur
    requires Estimate(r, now, dur).Floor + n < limit
    ensures Again(r.(count := r.count + 1), now, limit, dur, n) == r.(count := r.count + 1 + n)
  {
    if n > 0 {
      AgainCounts(r, now, limit, dur, n - 1);
      EstimateCounts(r, now, dur, n);
    }
  }

  /** A refusal's retry time is never zero and never more than the window. */
  lemma RetryInWindow(found: Option<Window>, now: int, limit: int, dur: int)
    requires dur > 0 && (found.Some? ==> found.value.start <= now)
    ensures var d := Step(found, now, limit, dur).1; !d.allowed ==> 0 < d.retryAfter <= dur && d.remaining == 0
  {
  }

  // ---- keys do not see each other ----

  datatype Call = Call(now: int, key: string)

  /** The cache after calls on many keys, each key's limit and window fixed. */
  function CacheAfter(calls: seq<Call>, limit: string -> int, dur: string -> int): Cache
    requires forall key :: dur(key) > 0
  {
    if calls == [] then map[]
    else
      var cache, c := CacheAfter(calls[..|calls| - 1], limit, dur), calls[|calls| - 1];
      cache[c.key := Step(Get(cache, c.key), c.now, limit(c.key), dur(c.key)).0]
  }

  function TimesOf(calls: seq<Call>, key: string): seq<int> {
    if calls == [] then []
    else TimesOf(calls[..|calls| - 1], key) + if calls[|calls| - 1].key == key then [calls[|calls| - 1].now] else []
  }

  /** A key's window depends on the calls made with that key, and on nothing else. */
  lemma {:induction false} KeysApart(calls: seq<Call>, limit: string -> int, dur: string -> int, key: string)
    requires forall k :: dur(k) > 0
    ensures Get(CacheAfter(calls, limit, dur), key) == After(TimesOf(calls, key), limit(key), dur(key)).w
  {
    if calls != [] {
      var earlier, c := calls[..|calls| - 1], calls[|calls| - 1];
      KeysApart(earlier, limit, dur, key);
      AfterPush(TimesOf(earlier, key), c.now, limit(key), dur(key));
      assert c.key != key ==> TimesOf(calls, key) == TimesOf(earlier, key);
    }
  }

  lemma AfterPush(times: seq<int>, now: int, limit: int, dur: int)
    requires dur > 0
    ensures After(times + [now], limit, dur).w == Some(Step(After(times, limit, dur).w, now, limit, dur).0)
  {
    assert (times + [now])[..|times|] == times;
  }

  // ---- the decision, from the admissions alone ----

  lemma {:induction false} NoneInSpan(log: seq<Admission>, from: int, to: int)
    requires forall a | a in log :: a.time < from || to <= a.time
    ensures InSpan(log, from, to) == 0
  {
    if log != [] {
      assert log[|log| - 1] in log;
      NoneInSpan(log[..|log| - 1], from, to);
    }
  }

  /** A window's counts are those of its own span and of the one before, up to now. */
  predicate Booked(w: Window, log: seq<Admission>, now: int, dur: int) {
    && w.start <= now < w.start + dur && (forall a | a in log :: a.time <= now)
    && w.count == InSpan(log, w.start, w.start + dur) && w.prev == InSpan(log, w.start - dur, w.start)
  }

  lemma RollBooks(w: Window, log: seq<Admission>, before: int, now: int, dur: int)
    requires dur > 0 && Booked(w, log, before, dur) && before <= now
    ensures Booked(Roll(w, now, dur), log, now, dur)
  {
    if now - w.start >= dur {
      var r := Roll(w, now, dur);
      NoneInSpan(log, r.start, r.start + dur);
      if now - w.start >= 2 * dur {
        NoneInSpan(log, r.start - dur, r.start);
      }
    }
  }

  lemma AdmitBooks(w: Window, log: seq<Admission>, now: int, dur: int)
    requires dur > 0 && Booked(w, log, now, dur)
    ensures Booked(w.(count := w.count + 1), log + [Admission(now, w.start)], now, dur)
  {
    SpanPush(log, Admission(now, w.start), w.start, w.start + dur);
    SpanPush(log, Admission(now, w.start), w.start - dur, w.start);
  }

  lemma {:induction false} RunsBooked(times: seq<int>, limit: int, dur: int)
    requires dur > 0 && times != [] && Ordered(times)
    ensures var h := After(times, limit, dur); h.w.Some? && Booked(h.w.value, h.log, times[|times| - 1], dur)
  {
    var earlier, now := times[..|times| - 1], times[|times| - 1];
    if earlier == [] {
      CallBooks(Window(now, 0, 0), [], now, now, limit, dur);
    } else {
      RunsBooked(earlier, limit, dur);
      var h := After(earlier, limit, dur);
      CallBooks(h.w.value, h.log, earlier[|earlier| - 1], now, limit, dur);
    }
  }

  lemma CallBooks(w: Window, log: seq<Admission>, before: int, now: int, limit: int, dur: int)
    requires dur > 0 && Booked(w, log, before, dur) && before <= now
    ensures var (v, d) := Step(Some(w), now, limit, dur);
            Booked(v, if d.allowed then log + [Admission(now, v.start)] else log, now, dur)
  {
    RollBooks(w, log, before, now, dur);
    AdmitBooks(Roll(w, now, dur), log, now, dur);
  }

  /** The estimate at `now`: the admissions of the window from `start` on, and those of the one
      before it by the part of it a window reaching back from now still covers. */
  function Sliding(log: seq<Admission>, start: int, now: int, dur: int): real
    requires dur > 0
  {
    InSpan(log, start, start + dur) as real
    + InSpan(log, start - dur, start) as real * ((start + dur - now) as real / dur as real)
  }

  /** With `used` of the limit gone and so long to the end of the window. */
  function Verdict(used: int, left: int, limit: int): Decision {
    if used < limit then Decision(true, limit, limit - used - 1, 0) else Decision(false, limit, 0, left)
  }

  /** Windows follow one another until a whole one has gone by without a call; a call is admitted
      exactly when the sliding estimate of the admissions so far leaves room for one, and a
      refused one is told to come back when its window ends. */
  lemma CallExactly(times: seq<int>, now: int, limit: int, dur: int)
    requires dur > 0 && times != [] && Ordered(times) && times[|times| - 1] <= now
    ensures After(times, limit, dur).w.Some?
    ensures var h := After(times, limit, dur);
      var last, (w, d) := h.w.value.start, Step(h.w, now, limit, dur);
      && w.start == (if now < last + dur then last else if now < last + 2 * dur then last + dur else now)
      && w.start <= now < w.start + dur
      && d == Verdict(Sliding(h.log, w.start, now, dur).Floor, w.start + dur - now, limit)
  {
    RunsBooked(times, limit, dur);
    var h := After(times, limit, dur);
    RollBooks(h.w.value, h.log, times[|times| - 1], now, dur);
    EstimateSlides(Roll(h.w.value, now, dur), h.log, now, dur);
  }

  lemma EstimateSlides(w: Window, log: seq<Admission>, now: int, dur: int)
    requires dur > 0 && Booked(w, log, now, dur)
    ensures Estimate(w, now, dur) == Sliding(log, w.start, now, dur)
  {
    DivMono(0, dur - (now - w.start), dur);
    assert dur - (now - w.start) == w.start + dur - now;
  }

  /** The first call of all opens a window and is admitted if anything is. */
  lemma FirstCall(now: int, limit: int, dur: int)
    requires dur > 0
    ensures Step(None, now, limit, dur) ==
      if limit > 0 then (Window(now, 1, 0), Decision(true, limit, limit - 1, 0))
      else (Window(now, 0, 0), Decision(false, limit, 0, dur))
  {
    assert Estimate(Window(now, 0, 0), now, dur) == 0.0;
  }
}
