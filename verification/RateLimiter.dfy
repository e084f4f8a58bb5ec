/** The Redis-backed limiter: `INCR key`, then `EXPIRE key window` by the request that got 1, as
    two commands with anything in between. */
module RateLimiter {
  import opened Numbers
  import opened Wrappers

  /** One lifetime of the key: its first `INCR`, the times of the requests it let through, and
      when it ended (of no meaning for the current one). */
  datatype Life = Life(start: int, admitted: seq<int>, ended: int)

  /** `expiry` is the key's own, `None` while it has no TTL. `arming`: the request that got 1 has
      still to send its `EXPIRE`. `past` and `current` are history. */
  datatype State = State(
    window: int, max: nat, now: int, count: nat, expiry: Option<int>, arming: bool,
    past: seq<Life>, current: Life)

  datatype Event =
    | Request
    | Expire
    | ExpireLost
    | Tick(elapsed: nat)

  /** There is no key: none was set (a set key counts from 1), or it has expired. */
  predicate Gone(s: State) { s.count == 0 || (s.expiry.Some? && s.expiry.value <= s.now) }

  /** `INCR`: a key that is gone starts again at 1, without a TTL. */
  function Incr(s: State): State {
    if !Gone(s) then s.(count := s.count + 1)
    else
      s.(count := 1, expiry := None, arming := true,
         past := if s.count > 0 && s.expiry.Some? then s.past + [s.current.(ended := s.expiry.value)] else s.past,
         current := Life(s.now, [], 0))
  }

  /** The request is let through when the count it gets to see is at most `max`. */
  predicate LetsThrough(s: State) { Incr(s).count <= s.max }

  function Serve(s: State): State {
    var t := Incr(s);
    if LetsThrough(s) then t.(current := t.current.(admitted := t.current.admitted + [s.now])) else t
  }

  function Apply(s: State, e: Event): State {
    match e
    case Request => Serve(s)
    case Expire => if s.arming then s.(expiry := Some(s.now + s.window), arming := false) else s
    case ExpireLost => s.(arming := false)
    case Tick(elapsed) => s.(now := s.now + elapsed)
  }

  function Run(s: State, es: seq<Event>): State
    decreases |es|
  {
    if es == [] then s else Apply(Run(s, es[..|es| - 1]), es[|es| - 1])
  }

  predicate Initial(s: State) {
    s.window > 0 && s.count == 0 && s.expiry.None? && !s.arming && s.past == []
  }

  // ---------------------------------------------------------------- what every step keeps

  /** Times of one lifetime: the first is its start, none lies outside. */
  ghost predicate Times(times: seq<int>, start: int, bound: int) {
    && (times != [] ==> times[0] == start)
    && forall i :: 0 <= i < |times| ==> start <= times[i] < bound
  }

  ghost predicate SoundLife(l: Life, window: int, max: nat) {
    |l.admitted| <= max && l.ended - l.start >= window && Times(l.admitted, l.start, l.ended)
  }

  /** The lifetimes that are over: each lasted at least a window, none overlaps the next, and all
      ended by `until`. */
  ghost predicate PastInv(past: seq<Life>, window: int, max: nat, until: int)
    decreases |past|
  {
    past == [] ||
      var last := past[|past| - 1];
      SoundLife(last, window, max) && last.ended <= until && PastInv(past[..|past| - 1], window, max, last.start)
  }

  ghost predicate CurrentInv(s: State) {
    && s.current.start <= s.now
    && |s.current.admitted| == Least(s.count, s.max)
    && Times(s.current.admitted, s.current.start, s.now + 1)
    && (s.expiry.Some? ==>
          s.expiry.value - s.current.start >= s.window && Times(s.current.admitted, s.current.start, s.expiry.value))
  }

  ghost predicate Inv(s: State) {
    && s.window > 0
    && (s.arming ==> s.expiry.None? && s.count > 0)
    && (if s.count == 0 then s.past == [] && s.expiry.None?
        else CurrentInv(s) && PastInv(s.past, s.window, s.max, s.current.start))
  }

  lemma RequestKeepsInv(s: State)
    requires Inv(s)
    ensures Inv(Serve(s))
  {
    var t := Serve(s);
    if Gone(s) && s.count > 0 {
      var closed := s.current.(ended := s.expiry.value);
      assert t.past[..|t.past| - 1] == s.past;
      assert SoundLife(closed, s.window, s.max);
    }
  }

  lemma ApplyKeepsInv(s: State, e: Event)
    requires Inv(s)
    ensures Inv(Apply(s, e))
    ensures Apply(s, e).window == s.window && Apply(s, e).max == s.max
  {
    hide Serve, PastInv;
    match e
    case Request =>
      RequestKeepsInv(s);
      ServeKeepsSettings(s);
    case _ =>
  }

  lemma ServeKeepsSettings(s: State)
    ensures Serve(s).window == s.window && Serve(s).max == s.max
  {
  }

  lemma {:induction false} RunKeepsInv(s: State, es: seq<Event>)
    requires Initial(s)
    ensures Inv(Run(s, es)) && Run(s, es).window == s.window && Run(s, es).max == s.max
    decreases |es|
  {
    hide Apply;
    if es == [] {
    } else {
      RunKeepsInv(s, es[..|es| - 1]);
      ApplyKeepsInv(Run(s, es[..|es| - 1]), es[|es| - 1]);
    }
  }

  // ---------------------------------------------------------------- the rate bound

  /** How many of `times` fall into the interval from `a` up to `b`. */
  function Within(times: seq<int>, a: int, b: int): (n: nat)
    ensures n <= |times|
  {
    if times == [] then 0
    else Within(times[1..], a, b) + if a <= times[0] < b then 1 else 0
  }

  function PastWithin(past: seq<Life>, a: int, b: int): nat
    decreases |past|
  {
    if past == [] then 0
    else PastWithin(past[..|past| - 1], a, b) + Within(past[|past| - 1].admitted, a, b)
  }

  /** All requests let through in the interval. */
  function AdmittedWithin(s: State, a: int, b: int): nat {
    PastWithin(s.past, a, b) + if s.count == 0 then 0 else Within(s.current.admitted, a, b)
  }

  lemma {:induction false} NoneWithin(times: seq<int>, a: int, b: int)
    requires (forall i :: 0 <= i < |times| ==> times[i] < a) || (forall i :: 0 <= i < |times| ==> times[i] >= b)
    ensures Within(times, a, b) == 0
  {
    if times == [] {
    } else {
      NoneWithin(times[1..], a, b);
    }
  }

  /** Lifetimes that were over by `a` admitted nothing from `a` on. */
  lemma {:induction false} NoneFromOldLives(past: seq<Life>, window: int, max: nat, a: int, b: int)
    requires window > 0 && PastInv(past, window, max, a)
    ensures PastWithin(past, a, b) == 0
    decreases |past|
  {
    if past == [] {
    } else {
      var n := |past| - 1;
      NoneWithin(past[n].admitted, a, b);
      PastUntil(past[..n], window, max, past[n].start, a);
      NoneFromOldLives(past[..n], window, max, a, b);
    }
  }

  lemma PastUntil(past: seq<Life>, window: int, max: nat, t: int, u: int)
    requires PastInv(past, window, max, t) && t <= u
    ensures PastInv(past, window, max, u)
  {
  }

  /** A lifetime that ended less than a window before `b` started before `a`, so its first request
      lies outside the interval; everything older lies outside altogether. */
  lemma OneLifeAtMost(past: seq<Life>, window: int, max: nat, until: int, a: int, b: int)
    requires window > 0 && max > 0 && b - a <= window && PastInv(past, window, max, until) && until < b
    ensures PastWithin(past, a, b) <= max - 1
  {
    if past == [] {
    } else {
      var n := |past| - 1;
      var last := past[n];
      NoneFromOldLives2(past[..n], window, max, last.start, a, b);
      if last.admitted != [] {
        assert last.admitted[0] < a;
      }
    }
  }

  lemma NoneFromOldLives2(past: seq<Life>, window: int, max: nat, until: int, a: int, b: int)
    requires window > 0 && PastInv(past, window, max, until) && until <= a
    ensures PastWithin(past, a, b) == 0
  {
    PastUntil(past, window, max, until, a);
    NoneFromOldLives(past, window, max, a, b);
  }

  lemma {:induction false} PastAtMost(past: seq<Life>, window: int, max: nat, until: int, a: int, b: int)
    requires window > 0 && max > 0 && b - a <= window && PastInv(past, window, max, until)
    ensures PastWithin(past, a, b) <= 2 * max - 1
    decreases |past|
  {
    if past == [] {
    } else {
      var n := |past| - 1;
      var last := past[n];
      if last.start >= b {
        NoneWithin(last.admitted, a, b);
        PastAtMost(past[..n], window, max, last.start, a, b);
      } else {
        OneLifeAtMost(past[..n], window, max, last.start, a, b);
      }
    }
  }

  /** In every run, with the two commands of a request interleaved with anything and even lost, an
      interval no longer than the window contains at most `2 * max - 1` admitted requests (and none
      when `max` is zero): it touches at most two lifetimes of the key, and misses the first
      request of the earlier one. */
  lemma RateBound(s: State, es: seq<Event>, a: int, b: int)
    requires Initial(s) && b - a <= s.window
    ensures AdmittedWithin(Run(s, es), a, b) <= if s.max == 0 then 0 else 2 * s.max - 1
  {
    hide Run;
    RunKeepsInv(s, es);
    var t := Run(s, es);
    if s.max == 0 {
      NoneEver(t.past, t.window, t.current.start, a, b);
    } else if t.count > 0 {
      if t.current.start >= b {
        NoneWithin(t.current.admitted, a, b);
        PastAtMost(t.past, t.window, t.max, t.current.start, a, b);
      } else {
        OneLifeAtMost(t.past, t.window, t.max, t.current.start, a, b);
      }
    }
  }

  lemma {:induction false} NoneEver(past: seq<Life>, window: int, until: int, a: int, b: int)
    requires past == [] || PastInv(past, window, 0, until)
    ensures PastWithin(past, a, b) == 0
    decreases |past|
  {
    if past == [] {
    } else {
      NoneEver(past[..|past| - 1], window, past[|past| - 1].start, a, b);
    }
  }

  /** A request is refused exactly when `max` requests have been let through in the lifetime the
      key is in - or when `max` is zero. */
  lemma RefusedIff(s: State)
    requires Inv(s)
    ensures !LetsThrough(s) <==> s.max == 0 || (!Gone(s) && |s.current.admitted| == s.max)
  {
  }

  // ---------------------------------------------------------------- the bound is met

  lemma {:induction false} RunOn(s: State, es: seq<Event>, fs: seq<Event>)
    ensures Run(s, es + fs) == Run(Run(s, es), fs)
    decreases |fs|
  {
    hide Apply;
    if fs == [] {
      assert es + fs == es;
    } else {
      RunOn(s, es, fs[..|fs| - 1]);
      assert (es + fs)[..|es + fs| - 1] == es + fs[..|fs| - 1];
    }
  }

  lemma RunOne(s: State, e: Event)
    ensures Run(s, [e]) == Apply(s, e)
  {
    assert [e][..0] == [];
  }

  function Requests(n: nat): seq<Event> { seq(n, _ => Request) }

  function Same(n: nat, t: int): seq<int> { seq(n, _ => t) }

  /** As long as the quota lasts, requests of one moment are all let through. */
  lemma {:induction false} QuotaLasts(s: State, n: nat)
    requires !Gone(s) && s.count + n <= s.max
    ensures Run(s, Requests(n))
            == s.(count := s.count + n, current := s.current.(admitted := s.current.admitted + Same(n, s.now)))
  {
    if n == 0 {
      assert s.current.admitted + Same(n, s.now) == s.current.admitted;
    } else {
      QuotaLasts(s, n - 1);
      assert Requests(n)[..n - 1] == Requests(n - 1);
      assert s.current.admitted + Same(n, s.now) == s.current.admitted + Same(n - 1, s.now) + [s.now];
    }
  }

  lemma {:induction false} AllWithin(times: seq<int>, a: int, b: int)
    requires forall i :: 0 <= i < |times| ==> a <= times[i] < b
    ensures Within(times, a, b) == |times|
  {
    if times == [] {
    } else {
      AllWithin(times[1..], a, b);
    }
  }

  /** One request early and the rest of the quota late in a lifetime, then a whole quota. */
  function Burst(s: State): seq<Event>
    requires s.window > 1 && s.max > 0
  {
    [Request] + [Expire] + [Tick(s.window - 1)] + Requests(s.max - 1) + [Tick(1)] + [Request] + Requests(s.max - 1)
  }

  lemma FirstLife(s: State)
    requires Initial(s) && s.window > 1 && s.max > 0
    ensures var t := Run(s, [Request] + [Expire] + [Tick(s.window - 1)] + Requests(s.max - 1));
            && t.now == s.now + s.window - 1 && t.count == s.max == |t.current.admitted|
            && t.expiry == Some(s.now + s.window) && t.past == [] && t.max == s.max && t.window == s.window
            && t.current.admitted == [s.now] + Same(s.max - 1, t.now)
  {
    hide Run;
    RunOne(s, Request);
    RunOn(s, [Request], [Expire]);
    RunOne(Apply(s, Request), Expire);
    var two := Apply(Apply(s, Request), Expire);
    RunOn(s, [Request] + [Expire], [Tick(s.window - 1)]);
    RunOne(two, Tick(s.window - 1));
    var three := Apply(two, Tick(s.window - 1));
    RunOn(s, [Request] + [Expire] + [Tick(s.window - 1)], Requests(s.max - 1));
    QuotaLasts(three, s.max - 1);
    assert three.current.admitted == [s.now];
  }

  lemma SecondLife(t: State)
    requires t.max > 0 && t.count > 0 && t.expiry == Some(t.now + 1)
    ensures var u := Run(t, [Tick(1)] + [Request] + Requests(t.max - 1));
            && u.past == t.past + [t.current.(ended := t.now + 1)]
            && u.count == t.max && u.current.admitted == [t.now + 1] + Same(t.max - 1, t.now + 1)
  {
    hide Run;
    RunOne(t, Tick(1));
    RunOn(t, [Tick(1)], [Request]);
    RunOne(Apply(t, Tick(1)), Request);
    var two := Apply(Apply(t, Tick(1)), Request);
    RunOn(t, [Tick(1)] + [Request], Requests(t.max - 1));
    QuotaLasts(two, t.max - 1);
    assert two.current.admitted == [t.now + 1];
  }

  /** The bound is met, for every quota: the late part of one lifetime and all of the next fall
      into an interval as long as the window. (A window is a number of whole seconds and time runs
      in milliseconds, so it is longer than one.) */
  lemma BoundIsMet(s: State)
    requires Initial(s) && s.max > 0 && s.window > 1
    ensures AdmittedWithin(Run(s, Burst(s)), s.now + 1, s.now + 1 + s.window) == 2 * s.max - 1
  {
    hide Run, AdmittedWithin;
    var first := [Request] + [Expire] + [Tick(s.window - 1)] + Requests(s.max - 1);
    var second := [Tick(1)] + [Request] + Requests(s.max - 1);
    FirstLife(s);
    RunOn(s, first, second);
    assert Burst(s) == first + second;
    SecondLife(Run(s, first));
    CountsBoth(Run(s, Burst(s)), s.now, s.window, s.max);
  }

  lemma CountsBoth(u: State, now: int, window: int, max: nat)
    requires window > 1 && max > 0 && u.count > 0
    requires |u.past| == 1 && u.past[0].admitted == [now] + Same(max - 1, now + window - 1)
    requires u.current.admitted == [now + window] + Same(max - 1, now + window)
    ensures AdmittedWithin(u, now + 1, now + 1 + window) == 2 * max - 1
  {
    var a, b := now + 1, now + 1 + window;
    var early, late := u.past[0].admitted, u.current.admitted;
    AllWithin(late, a, b);
    assert early[1..] == Same(max - 1, now + window - 1);
    AllWithin(early[1..], a, b);
    assert u.past[..0] == [];
    assert PastWithin(u.past, a, b) == PastWithin([], a, b) + Within(early, a, b);
  }

  /** What a run lets through in the window's length from `a` on. */
  function AdmittedFrom(s: State, es: seq<Event>, a: int): nat { AdmittedWithin(Run(s, es), a, a + s.window) }

  /** So an interval as long as the window never holds more than the quota if and only if that is
      at most one. */
  lemma WindowHoldsQuotaIff(s: State)
    requires Initial(s) && s.window > 1
    ensures (forall es, a :: AdmittedFrom(s, es, a) <= s.max) <==> s.max <= 1
  {
    if s.max <= 1 {
      forall es, a ensures AdmittedFrom(s, es, a) <= s.max {
        RateBound(s, es, a, a + s.window);
      }
    } else {
      BoundIsMet(s);
      assert AdmittedFrom(s, Burst(s), s.now + 1) > s.max;
    }
  }

  // ---------------------------------------------------------------- the lost EXPIRE

  ghost predicate Stuck(s: State) { s.count >= s.max && s.count > 0 && s.expiry.None? && !s.arming }

  /** If the `EXPIRE` is lost (a crash between the two commands) and the quota is used up, the key
      never expires: no later request of the run is let through, however long it waits. */
  lemma {:induction false} LostExpireIsForEver(s: State, es: seq<Event>)
    requires Stuck(s)
    ensures Stuck(Run(s, es)) && !LetsThrough(Run(s, es))
    decreases |es|
  {
    if es == [] {
    } else {
      LostExpireIsForEver(s, es[..|es| - 1]);
    }
  }

  lemma {:induction false} UsedUp(s: State, n: nat)
    requires s.count > 0 && s.expiry.None? && !s.arming
    ensures var t := Run(s, Requests(n));
            t.count == s.count + n && t.expiry.None? && !t.arming && t.max == s.max
  {
    if n == 0 {
    } else {
      UsedUp(s, n - 1);
      assert Requests(n)[..n - 1] == Requests(n - 1);
    }
  }

  /** It does come to that: one lost `EXPIRE` and as many further requests as the quota. */
  lemma LostExpireSticks(s: State)
    requires Initial(s)
    ensures Stuck(Run(s, [Request] + [ExpireLost] + Requests(s.max)))
  {
    hide Run;
    RunOne(s, Request);
    RunOn(s, [Request], [ExpireLost]);
    RunOne(Apply(s, Request), ExpireLost);
    RunOn(s, [Request] + [ExpireLost], Requests(s.max));
    UsedUp(Apply(Apply(s, Request), ExpireLost), s.max);
  }

  /** When a quota comes back: some later request can be let through if and only if one can now,
      or the key has an expiry, or its `EXPIRE` is still under way. */
  lemma ComesBackIff(s: State)
    requires Inv(s) && s.max > 0
    ensures (exists es :: LetsThrough(Run(s, es))) <==> LetsThrough(s) || s.expiry.Some? || s.arming
  {
    if LetsThrough(s) {
      assert LetsThrough(Run(s, []));
    } else if s.expiry.Some? {
      var wait := s.expiry.value - s.now;
      RunOne(s, Tick(wait));
      assert LetsThrough(Run(s, [Tick(wait)]));
    } else if s.arming {
      RunOne(s, Expire);
      RunOn(s, [Expire], [Tick(s.window)]);
      RunOne(Apply(s, Expire), Tick(s.window));
      assert LetsThrough(Run(s, [Expire] + [Tick(s.window)]));
    } else {
      forall es ensures !LetsThrough(Run(s, es)) {
        LostExpireIsForEver(s, es);
      }
    }
  }

  /** A lifetime ends a window after its `EXPIRE`, neither sooner nor later: in every run from
      there on it is either still the current one, and gone exactly when the window has passed,
      or it is over and was as long as that. */
  lemma {:induction false} LifeLastsItsWindow(s: State, es: seq<Event>)
    requires s.arming && s.count > 0
    ensures var n, u := |s.past|, Run(Apply(s, Expire), es);
            && |u.past| >= n
            && (|u.past| == n ==> u.count > 0 && !u.arming && u.expiry == Some(s.now + s.window)
                                  && u.current.start == s.current.start && (Gone(u) <==> u.now >= s.now + s.window))
            && (|u.past| > n ==> u.now >= s.now + s.window && u.past[n].ended == s.now + s.window
                                 && u.past[n].start == s.current.start)
    decreases |es|
  {
    if es == [] {
    } else {
      var front := es[..|es| - 1];
      LifeLastsItsWindow(s, front);
      NextLife(Run(Apply(s, Expire), front), es[|es| - 1]);
      hide Serve;
    }
  }

  /** What an event does to the lifetimes. */
  lemma NextLife(s: State, e: Event)
    ensures var t := Apply(s, e);
            && t.now >= s.now
            && (if e.Request? && Gone(s) && s.count > 0 && s.expiry.Some?
                then t.past == s.past + [s.current.(ended := s.expiry.value)]
                else t.past == s.past)
            && (s.count > 0 && !s.arming && !(e.Request? && Gone(s)) ==>
                  t.count > 0 && !t.arming && t.expiry == s.expiry && t.current.start == s.current.start)
  {
  }

  // ---------------------------------------------------------------- the middleware

  class Counter {
    const window: int
    const max: nat
    var count: nat
    var expiry: Option<int>

    constructor (window: int, max: nat)
      requires window > 0
      ensures this.window == window && this.max == max && count == 0 && expiry.None?
    {
      this.window, this.max, count, expiry := window, max, 0, None;
    }

    ghost function Now(now: int, past: seq<Life>, current: Life): State
      reads this
    {
      State(window, max, now, count, expiry, false, past, current)
    }

    /** One request of `userRateLimiter` that nothing interrupts; with Redis down it is let
        through uncounted. */
    method RateLimitByUser(now: int, redisUp: bool, ghost past: seq<Life>, ghost current: Life) returns (next: bool)
      modifies this
      ensures !redisUp ==> next && count == old(count) && expiry == old(expiry)
      ensures redisUp ==>
                var before := old(Now(now, past, current));
                var served := Serve(before);
                var after := if served.arming then Apply(served, Expire) else served;
                && next == LetsThrough(before)
                && count == after.count && expiry == after.expiry
    {
      if !redisUp {
        return true;
      }
      if count == 0 || (expiry.Some? && expiry.value <= now) {
        count, expiry := 1, None;
      } else {
        count := count + 1;
      }
      if count == 1 {
        expiry := Some(now + window);
      }
      next := count <= max;
    }
  }
}
