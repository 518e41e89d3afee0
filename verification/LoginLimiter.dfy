/** The sliding-window login limiter (internal/auth/ratelimit.go): failure times kept per key in a
    slice that is filtered in place, against the full history of failures. */
module LoginLimiter {

  /** The times strictly after `cutoff`, in order. */
  function After(s: seq<nat>, cutoff: int): seq<nat>
  {
    if s == [] then []
    else After(s[..|s| - 1], cutoff) + if cutoff < s[|s| - 1] then [s[|s| - 1]] else []
  }

  /** One call for a key. The window is read from the settings at every call. */
  datatype Call = Check(now: nat, window: nat) | Fail(now: nat, window: nat) | Reset

  function Step(kept: seq<nat>, c: Call): seq<nat>
  {
    match c
    case Check(now, window) => After(kept, now - window)
    case Fail(now, window) => After(kept, now - window) + [now]
    case Reset => []
  }

  // ---- The limiter ----

  /** The first `len` elements of a backing array. */
  datatype Slice = Slice(buf: array<nat>, len: nat)

  method FilterInPlace(a: array<nat>, n: nat, cutoff: int) returns (kept: nat)
    requires n <= a.Length
    modifies a
    ensures kept <= n && a[..kept] == After(old(a[..n]), cutoff)
  {
    kept := 0;
    ghost var s := a[..n];
    for i := 0 to n
      invariant kept <= i && a[..kept] == After(s[..i], cutoff)
      invariant forall j :: i <= j < n ==> a[j] == s[j]
    {
      assert s[..i + 1][..i] == s[..i];
      if cutoff < a[i] {
        a[kept] := a[i];
        kept := kept + 1;
        assert a[..kept] == a[..kept - 1] + [s[i]];
      }
    }
    assert s[..n] == s;
  }

  /** Go's `append`: in the backing array while there is room, else in a larger copy. */
  method Append(s: Slice, t: nat) returns (r: Slice)
    requires s.len <= s.buf.Length
    modifies s.buf
    ensures r.len == s.len + 1 <= r.buf.Length && (r.buf == s.buf || fresh(r.buf))
    ensures r.buf[..r.len] == old(s.buf[..s.len]) + [t]
  {
    var buf := s.buf;
    if s.len == buf.Length {
      buf := new nat[2 * s.len + 1];
      for i := 0 to s.len
        invariant buf[..i] == s.buf[..i]
        modifies buf
      {
        buf[i] := s.buf[i];
      }
    }
    buf[s.len] := t;
    r := Slice(buf, s.len + 1);
  }

  class Limiter {
    var attempts: map<string, Slice>

    ghost function Buffers(): set<array<nat>>
      reads this
    {
      set k | k in attempts :: attempts[k].buf
    }

    ghost predicate Valid()
      reads this
    {
      && (forall k :: k in attempts ==> attempts[k].len <= attempts[k].buf.Length)
      && (forall k, l :: k in attempts && l in attempts && k != l ==> attempts[k].buf != attempts[l].buf)
    }

    /** The failure times kept for a key. */
    ghost function Kept(key: string): seq<nat>
      requires Valid()
      reads this, Buffers()
    {
      if key in attempts then attempts[key].buf[..attempts[key].len] else []
    }

    constructor ()
      ensures Valid() && forall key :: Kept(key) == []
    {
      attempts := map[];
    }

    method Prune(key: string, window: nat, now: nat)
      requires Valid()
      modifies this, if key in attempts then {attempts[key].buf} else {}
      ensures Valid() && attempts.Keys == old(attempts.Keys) + {key}
      ensures if key in old(attempts) then attempts[key].buf == old(attempts[key].buf) else fresh(attempts[key].buf)
      ensures Kept(key) == After(old(Kept(key)), now - window)
      ensures forall k :: k != key ==> Kept(k) == old(Kept(k))
    {
      if key in attempts {
        var s := attempts[key];
        var kept := FilterInPlace(s.buf, s.len, now - window);
        attempts := attempts[key := Slice(s.buf, kept)];
        assert attempts.Keys == old(attempts.Keys) + {key};
      } else {
        var empty := new nat[0];
        attempts := attempts[key := Slice(empty, 0)];
      }
    }

    /** Whether `key` is still under the limit; the kept failures are pruned on the way. */
    method Allow(key: string, max: int, window: nat, now: nat) returns (allowed: bool)
      requires Valid()
      modifies this, if key in attempts then {attempts[key].buf} else {}
      ensures Valid() && Kept(key) == Step(old(Kept(key)), Check(now, window))
      ensures allowed <==> |After(old(Kept(key)), now - window)| < max
      ensures forall k :: k != key ==> Kept(k) == old(Kept(k))
    {
      Prune(key, window, now);
      allowed := attempts[key].len < max;
    }

    method Push(key: string, t: nat)
      requires Valid() && key in attempts
      modifies this, attempts[key].buf
      ensures Valid() && Kept(key) == old(Kept(key)) + [t]
      ensures forall k :: k != key ==> Kept(k) == old(Kept(k))
    {
      var s := Append(attempts[key], t);
      attempts := attempts[key := s];
    }

    method RecordFailure(key: string, window: nat, now: nat)
      requires Valid()
      modifies this, if key in attempts then {attempts[key].buf} else {}
      ensures Valid() && Kept(key) == Step(old(Kept(key)), Fail(now, window))
      ensures forall k :: k != key ==> Kept(k) == old(Kept(k))
    {
      Prune(key, window, now);
      Push(key, now);
    }

    method Reset(key: string)
      requires Valid()
      modifies this
      ensures Valid() && Kept(key) == []
      ensures forall k :: k != key ==> Kept(k) == old(Kept(k))
    {
      attempts := attempts - {key};
    }
  }

  // ---- Against the full history ----

  function KeptAfter(cs: seq<Call>): seq<nat>
  {
    if cs == [] then [] else Step(KeptAfter(cs[..|cs| - 1]), cs[|cs| - 1])
  }

  /** Every failure since the last reset. */
  function History(cs: seq<Call>): seq<nat>
  {
    if cs == [] then []
    else
      var before := History(cs[..|cs| - 1]);
      match cs[|cs| - 1]
      case Check(_, _) => before
      case Fail(now, _) => before + [now]
      case Reset => []
  }

  function Later(a: int, b: int): int { if a < b then b else a }

  /** The latest cutoff any call since the last reset pruned at; -1 before the first. */
  function Horizon(cs: seq<Call>): int
  {
    if cs == [] then -1
    else
      var before, last := Horizon(cs[..|cs| - 1]), cs[|cs| - 1];
      if last.Reset? then -1 else Later(before, last.now - last.window)
  }

  predicate NotAfter(cs: seq<Call>, now: nat)
  {
    cs == [] || (NotAfter(cs[..|cs| - 1], now) && (var last := cs[|cs| - 1]; last.Reset? || last.now <= now))
  }

  /** A clock that does not run backwards, and windows that are not empty. */
  predicate Ordered(cs: seq<Call>)
  {
    cs == [] ||
    var front, last := cs[..|cs| - 1], cs[|cs| - 1];
    Ordered(front) && (last.Reset? || (last.window > 0 && NotAfter(front, last.now)))
  }

  lemma {:induction false} HorizonIsPast(cs: seq<Call>, now: nat)
    requires Ordered(cs) && NotAfter(cs, now)
    ensures Horizon(cs) < now
  {
    if cs == [] {
    } else {
      var n := |cs| - 1;
      HorizonIsPast(cs[..n], now);
    }
  }

  lemma {:induction false} AfterAppend(s: seq<nat>, t: nat, cutoff: int)
    ensures After(s + [t], cutoff) == After(s, cutoff) + if cutoff < t then [t] else []
  {
    assert (s + [t])[..|s|] == s;
  }

  lemma {:induction false} AfterTwice(s: seq<nat>, a: int, b: int)
    ensures After(After(s, a), b) == After(s, Later(a, b))
  {
    if s == [] {
    } else {
      var n := |s| - 1;
      AfterTwice(s[..n], a, b);
      assert After(s, a) == if a < s[n] then After(s[..n], a) + [s[n]] else After(s[..n], a);
      if a < s[n] { AfterAppend(After(s[..n], a), s[n], b); }
    }
  }

  lemma OneMoreCall(kept: seq<nat>, history: seq<nat>, horizon: int, c: Call)
    requires kept == After(history, horizon) && !c.Reset? && c.window > 0 && horizon < c.now
    ensures Step(kept, c) == After(if c.Fail? then history + [c.now] else history, Later(horizon, c.now - c.window))
  {
    AfterTwice(history, horizon, c.now - c.window);
    AfterAppend(history, c.now, Later(horizon, c.now - c.window));
  }

  /** The in-place list is the full history cut at the horizon. */
  lemma {:induction false} KeptIsRecentHistory(cs: seq<Call>)
    requires Ordered(cs)
    ensures KeptAfter(cs) == After(History(cs), Horizon(cs))
  {
    if cs == [] {
    } else {
      var n := |cs| - 1;
      var front, last := cs[..n], cs[n];
      KeptIsRecentHistory(front);
      if !last.Reset? {
        HorizonIsPast(front, last.now);
        OneMoreCall(KeptAfter(front), History(front), Horizon(front), last);
      }
    }
  }

  predicate Allowed(failures: seq<nat>, max: int, cutoff: int) { |After(failures, cutoff)| < max }

  predicate NoneBetween(s: seq<nat>, a: int, b: int) { forall i :: 0 <= i < |s| ==> !(a < s[i] <= b) }

  lemma {:induction false} AfterShrinks(s: seq<nat>, a: int, b: int)
    requires a <= b
    ensures |After(s, b)| <= |After(s, a)|
    ensures |After(s, b)| == |After(s, a)| <==> NoneBetween(s, a, b)
  {
    if s == [] {
    } else {
      var front, last := s[..|s| - 1], s[|s| - 1];
      AfterShrinks(front, a, b);
      assert |After(s, a)| == |After(front, a)| + if a < last then 1 else 0;
      assert |After(s, b)| == |After(front, b)| + if b < last then 1 else 0;
      assert NoneBetween(s, a, b) <==> NoneBetween(front, a, b) && !(a < last <= b) by {
        assert forall i :: 0 <= i < |front| ==> s[i] == front[i];
      }
    }
  }

  lemma CutTwice(kept: seq<nat>, s: seq<nat>, horizon: int, cutoff: int)
    requires kept == After(s, horizon)
    ensures |After(kept, cutoff)| <= |After(s, cutoff)|
    ensures |After(kept, cutoff)| == |After(s, cutoff)| <==> NoneBetween(s, cutoff, horizon)
  {
    AfterTwice(s, horizon, cutoff);
    AfterShrinks(s, cutoff, Later(horizon, cutoff));
  }

  /** What the limiter counts: exactly the failures of the full history inside the window, less
      those an earlier call with a later cutoff already dropped. With a window that never grows
      there are none. */
  lemma {:induction false} LimiterCounts(cs: seq<Call>, now: nat, window: nat)
    requires Ordered(cs) && NotAfter(cs, now)
    ensures var cutoff := now - window;
            var counted, inWindow := |After(KeptAfter(cs), cutoff)|, |After(History(cs), cutoff)|;
            counted <= inWindow &&
            (counted == inWindow <==> NoneBetween(History(cs), cutoff, Horizon(cs)))
  {
    var kept, history, horizon := KeptAfter(cs), History(cs), Horizon(cs);
    assert kept == After(history, horizon) by { KeptIsRecentHistory(cs); }
    CutTwice(kept, history, horizon, now - window);
  }

  predicate FixedWindow(cs: seq<Call>, window: nat)
  {
    cs == [] ||
    var front, last := cs[..|cs| - 1], cs[|cs| - 1];
    FixedWindow(front, window) && (last.Reset? || last.window == window)
  }

  lemma {:induction false} FixedWindowHorizon(cs: seq<Call>, window: nat, now: nat)
    requires Ordered(cs) && NotAfter(cs, now) && FixedWindow(cs, window)
    ensures Horizon(cs) <= Later(-1, now - window)
  {
    if cs == [] {
    } else {
      var n := |cs| - 1;
      FixedWindowHorizon(cs[..n], window, now);
    }
  }

  /** With fixed settings the limiter answers as if it had the full history. */
  lemma LimiterRefinesHistory(cs: seq<Call>, max: int, window: nat, now: nat)
    requires Ordered(cs) && NotAfter(cs, now) && FixedWindow(cs, window)
    ensures Allowed(KeptAfter(cs), max, now - window) <==> Allowed(History(cs), max, now - window)
  {
    LimiterCounts(cs, now, window);
    FixedWindowHorizon(cs, window, now);
  }

  /** Widening the window in the settings does not bring dropped failures back. */
  lemma WideningForgets()
    ensures var cs := [Fail(10, 5), Check(20, 5)];
            Ordered(cs) && Allowed(KeptAfter(cs), 1, 25 - 20) && !Allowed(History(cs), 1, 25 - 20)
  {
    FailThenCheck([Fail(10, 5), Check(20, 5)]);
    assert [10][..0] == [];
    assert After([10], 5) == [10];
  }

  lemma FailThenCheck(cs: seq<Call>)
    requires cs == [Fail(10, 5), Check(20, 5)]
    ensures Ordered(cs) && KeptAfter(cs) == [] && History(cs) == [10]
  {
    var one := cs[..1];
    assert one == [Fail(10, 5)] && one[..0] == [] && [10][..0] == [];
    assert NotAfter(one, 20) && Ordered(one);
    assert KeptAfter(one) == After([], 5) + [10];
    assert After([], 5) == [] && [] + [10] == [10];
    assert History(one) == [10];
    assert After([10], 15) == After([], 15) + [];
    assert KeptAfter(cs) == After(KeptAfter(one), 15);
  }

  // ---- What the limit guarantees ----

  /** Failures in (lo, hi]. */
  function Within(s: seq<nat>, lo: int, hi: int): nat
  {
    if s == [] then 0 else Within(s[..|s| - 1], lo, hi) + if lo < s[|s| - 1] <= hi then 1 else 0
  }

  /** Every failure was recorded only after the limiter had allowed the attempt, with no other
      call for the key in between. */
  predicate CheckedFirst(cs: seq<Call>, max: int, window: nat)
  {
    cs == [] ||
    var front, last := cs[..|cs| - 1], cs[|cs| - 1];
    CheckedFirst(front, max, window) && (last.Fail? ==> Allowed(KeptAfter(front), max, last.now - window))
  }

  lemma {:induction false} WithinIsAfter(s: seq<nat>, lo: int, hi: int, cutoff: int)
    requires cutoff <= lo
    ensures Within(s, lo, hi) <= |After(s, cutoff)|
  {
    if s == [] {
    } else {
      WithinIsAfter(s[..|s| - 1], lo, hi, cutoff);
    }
  }

  lemma {:induction false} WithinAppend(s: seq<nat>, t: nat, lo: int, hi: int)
    ensures Within(s + [t], lo, hi) == Within(s, lo, hi) + if lo < t <= hi then 1 else 0
  {
    assert (s + [t])[..|s|] == s;
  }

  /** If check and record are one step, no window between resets ever holds more than `max`
      failures. */
  lemma {:induction false} NoWindowExceedsTheLimit(cs: seq<Call>, max: nat, window: nat, lo: int)
    requires Ordered(cs) && CheckedFirst(cs, max, window) && FixedWindow(cs, window)
    ensures Within(History(cs), lo, lo + window) <= max
  {
    if cs == [] {
    } else {
      var n := |cs| - 1;
      var front, last := cs[..n], cs[n];
      NoWindowExceedsTheLimit(front, max, window, lo);
      if last.Fail? {
        WithinAppend(History(front), last.now, lo, lo + window);
        if lo < last.now <= lo + window {
          LimiterRefinesHistory(front, max, window, last.now);
          WithinIsAfter(History(front), lo, lo + window, last.now - window);
        }
      }
    }
  }

  lemma {:induction false} WithinIsAfterCutoff(s: seq<nat>, cutoff: int, now: nat)
    requires forall i :: 0 <= i < |s| ==> s[i] <= now
    ensures Within(s, cutoff, now) == |After(s, cutoff)|
  {
    if s == [] {
    } else {
      WithinIsAfterCutoff(s[..|s| - 1], cutoff, now);
    }
  }

  lemma {:induction false} HistoryIsPast(cs: seq<Call>, now: nat)
    requires NotAfter(cs, now)
    ensures forall i :: 0 <= i < |History(cs)| ==> History(cs)[i] <= now
  {
    if cs == [] {
    } else {
      HistoryIsPast(cs[..|cs| - 1], now);
    }
  }

  lemma FullWindow(history: seq<nat>, max: nat, window: nat, now: nat)
    requires (forall i :: 0 <= i < |history| ==> history[i] <= now) && window > 0
    requires !Allowed(history, max, now - window)
    ensures Within(history + [now], now - window, now) > max
  {
    WithinIsAfterCutoff(history, now - window, now);
    WithinAppend(history, now, now - window, now);
  }

  /** A failure recorded when the limiter would no longer allow the attempt fills a window beyond the
      limit: the one that ends with it. */
  lemma UncheckedFailureExceeds(front: seq<Call>, max: nat, window: nat, now: nat)
    requires Ordered(front) && FixedWindow(front, window) && NotAfter(front, now) && window > 0
    requires !Allowed(KeptAfter(front), max, now - window)
    ensures Within(History(front) + [now], now - window, now) > max
  {
    LimiterRefinesHistory(front, max, window, now);
    HistoryIsPast(front, now);
    FullWindow(History(front), max, window, now);
  }

  predicate Fits(s: seq<nat>, lo: int, window: nat, max: nat) { Within(s, lo, lo + window) <= max }

  lemma FittingFailureWasAllowed(front: seq<Call>, max: nat, window: nat, now: nat)
    requires Ordered(front) && FixedWindow(front, window) && NotAfter(front, now) && window > 0
    requires Fits(History(front) + [now], now - window, window, max)
    ensures Allowed(KeptAfter(front), max, now - window)
  {
    if !Allowed(KeptAfter(front), max, now - window) { UncheckedFailureExceeds(front, max, window, now); }
  }

  /** At no time did any window hold more than `max` failures. */
  ghost predicate NeverExceeds(cs: seq<Call>, max: nat, window: nat)
  {
    && (cs == [] || NeverExceeds(cs[..|cs| - 1], max, window))
    && forall lo: int :: Fits(History(cs), lo, window, max)
  }

  lemma {:induction false} CheckedNeverExceeds(cs: seq<Call>, max: nat, window: nat)
    requires Ordered(cs) && FixedWindow(cs, window) && CheckedFirst(cs, max, window)
    ensures NeverExceeds(cs, max, window)
  {
    forall lo: int ensures Fits(History(cs), lo, window, max) { NoWindowExceedsTheLimit(cs, max, window, lo); }
    if cs == [] {
    } else {
      CheckedNeverExceeds(cs[..|cs| - 1], max, window);
    }
  }

  lemma {:induction false} NeverExceedsIsChecked(cs: seq<Call>, max: nat, window: nat)
    requires Ordered(cs) && FixedWindow(cs, window) && NeverExceeds(cs, max, window)
    ensures CheckedFirst(cs, max, window)
  {
    if cs == [] {
    } else {
      var front, last := cs[..|cs| - 1], cs[|cs| - 1];
      NeverExceedsIsChecked(front, max, window);
      if last.Fail? {
        assert Fits(History(front) + [last.now], last.now - window, window, max) by {
          assert Fits(History(cs), last.now - window, window, max);
        }
        FittingFailureWasAllowed(front, max, window, last.now);
      }
    }
  }

  /** No window ever holds more than the maximum exactly if every failure is recorded while the limiter
      still allows the attempt. */
  lemma LimitHoldsExactlyIfChecked(cs: seq<Call>, max: nat, window: nat)
    requires Ordered(cs) && FixedWindow(cs, window)
    ensures NeverExceeds(cs, max, window) <==> CheckedFirst(cs, max, window)
  {
    if CheckedFirst(cs, max, window) { CheckedNeverExceeds(cs, max, window); }
    if NeverExceeds(cs, max, window) { NeverExceedsIsChecked(cs, max, window); }
  }

  /** They are two steps in the login handler: two attempts checked before either failure is
      recorded exceed a limit of one. */
  lemma CheckThenRecordRaces()
    ensures var cs := [Check(10, 5), Check(10, 5), Fail(10, 5), Fail(10, 5)];
            Ordered(cs) && FixedWindow(cs, 5) &&
            Allowed(KeptAfter(cs[..0]), 1, 5) && Allowed(KeptAfter(cs[..1]), 1, 5) && Within(History(cs), 5, 10) == 2
  {
    var cs := [Check(10, 5), Check(10, 5), Fail(10, 5), Fail(10, 5)];
    assert cs[..3][..2] == cs[..2] && cs[..2][..1] == cs[..1] && cs[..1][..0] == cs[..0] == [];
    assert KeptAfter(cs[..1]) == [];
    assert NotAfter(cs[..1], 10) && Ordered(cs[..1]) && FixedWindow(cs[..1], 5);
    assert NotAfter(cs[..2], 10) && Ordered(cs[..2]) && FixedWindow(cs[..2], 5);
    assert NotAfter(cs[..3], 10);
    assert Ordered(cs[..3]);
    assert FixedWindow(cs[..3], 5);
    assert History(cs[..1]) == [] && History(cs[..2]) == [] && History(cs[..3]) == [10];
    assert History(cs) == [10] + [10];
    WithinAppend([10], 10, 5, 10);
    WithinAppend([], 10, 5, 10);
    assert [] + [10] == [10];
  }
}
