/** Failed sign-ins per client in a sliding window: a pruned queue, against the full history. */
module RateLimiter {
  import opened Prelude

  type Key = nat

  datatype Limits = Limits(max: nat, window: real)

  predicate Sorted(f: seq<real>) {
    forall i, j :: 0 <= i < j < |f| ==> f[i] <= f[j]
  }

  /** The queue after popping what is older than the window. */
  function Recent(l: Limits, f: seq<real>, now: real): seq<real>
    decreases |f|
  {
    if f != [] && f[0] < now - l.window then Recent(l, f[1..], now) else f
  }

  /** How many failures of the whole history fall in the window that ends now. */
  function InWindow(l: Limits, f: seq<real>, now: real): nat
    decreases |f|
  {
    if f == [] then 0 else (if f[0] >= now - l.window then 1 else 0) + InWindow(l, f[1..], now)
  }

  /** Popping from the front loses nothing in the window and keeps nothing outside it. */
  lemma {:induction false} RecentIsTheWindow(l: Limits, f: seq<real>, now: real)
    requires Sorted(f)
    ensures |Recent(l, f, now)| == InWindow(l, f, now)
    ensures var k := |f| - |Recent(l, f, now)|;
            && 0 <= k <= |f| && Recent(l, f, now) == f[k..]
            && (forall i :: 0 <= i < k ==> f[i] < now - l.window)
            && (forall i :: k <= i < |f| ==> f[i] >= now - l.window)
    decreases |f|
  {
    if f != [] {
      RecentIsTheWindow(l, f[1..], now);
      if f[0] >= now - l.window {
        assert forall i :: 0 <= i < |f[1..]| ==> f[1..][i] == f[i + 1] && f[i + 1] >= f[0];
        assert Recent(l, f[1..], now) == f[1..];
      } else {
        assert forall i :: 0 < i < |f| ==> f[i] == f[1..][i - 1];
      }
    }
  }

  /** Pruning earlier does not change what a later pruning leaves. */
  lemma {:induction false} PruneTwice(l: Limits, f: seq<real>, before: real, now: real)
    requires before <= now
    ensures Recent(l, Recent(l, f, before), now) == Recent(l, f, now)
    decreases |f|
  {
    if f != [] && f[0] < before - l.window {
      PruneTwice(l, f[1..], before, now);
    }
  }

  lemma {:induction false} PruneThenFail(l: Limits, f: seq<real>, before: real, at: real)
    requires before <= at && l.window >= 0.0
    ensures Recent(l, f, before) + [at] == Recent(l, f + [at], before)
    decreases |f|
  {
    if f == [] {
      assert f + [at] == [at];
    } else if f[0] < before - l.window {
      assert (f + [at])[1..] == f[1..] + [at];
      PruneThenFail(l, f[1..], before, at);
    }
  }

  // --- sign-ins of one client ---

  /** A request that checks the limit at `check` and, if allowed, may fail at `at`; a successful
      sign-in resets. A request runs without another in between. */
  datatype Event = Attempt(check: real, at: real, failed: bool) | Reset

  /** The rule, on everything that failed since the last reset. */
  predicate Allowed(l: Limits, f: seq<real>, now: real) {
    InWindow(l, f, now) < l.max
  }

  function History(l: Limits, f: seq<real>, e: Event): seq<real> {
    match e
    case Reset => []
    case Attempt(check, at, failed) => if Allowed(l, f, check) && failed then f + [at] else f
  }

  /** What the queue does on the same event. */
  function Queue(l: Limits, q: seq<real>, e: Event): seq<real> {
    match e
    case Reset => []
    case Attempt(check, at, failed) =>
      var r := Recent(l, q, check);
      if |r| < l.max && failed then Recent(l, r, at) + [at] else r
  }

  predicate Ordered(events: seq<Event>, from: real, now: real)
    decreases |events|
  {
    if events == [] then from <= now
    else
      match events[0]
      case Reset => Ordered(events[1..], from, now)
      case Attempt(check, at, _) => from <= check <= at && Ordered(events[1..], at, now)
  }

  function RunHistory(l: Limits, f: seq<real>, events: seq<Event>): seq<real>
    decreases |events|
  {
    if events == [] then f else RunHistory(l, History(l, f, events[0]), events[1..])
  }

  function RunQueue(l: Limits, q: seq<real>, events: seq<Event>): seq<real>
    decreases |events|
  {
    if events == [] then q else RunQueue(l, Queue(l, q, events[0]), events[1..])
  }

  ghost predicate Until(f: seq<real>, now: real) {
    Sorted(f) && forall i :: 0 <= i < |f| ==> f[i] <= now
  }

  /** More than `max` failures in a row take longer than the window. */
  ghost predicate Spaced(l: Limits, f: seq<real>) {
    forall i, j :: 0 <= i && i + l.max <= j < |f| ==> f[j] - f[i] > l.window
  }

  /** The queue holds the part of the history that the window still reaches. */
  ghost predicate Describes(l: Limits, q: seq<real>, f: seq<real>, now: real) {
    && Until(f, now)
    && (forall later :: later >= now ==> Recent(l, q, later) == Recent(l, f, later))
  }

  lemma FailSpaced(l: Limits, f: seq<real>, check: real, at: real)
    requires Sorted(f) && Spaced(l, f) && Allowed(l, f, check) && check <= at
    ensures Spaced(l, f + [at])
  {
    RecentIsTheWindow(l, f, check);
    var g := f + [at];
    forall i, j | 0 <= i && i + l.max <= j < |g|
      ensures g[j] - g[i] > l.window
    {
      if j == |f| {
        assert i < |f| - |Recent(l, f, check)|;
      }
    }
  }

  lemma NextDescribes(l: Limits, q: seq<real>, f: seq<real>, e: Event, from: real)
    requires l.window >= 0.0 && Describes(l, q, f, from) && Spaced(l, f) && (e.Attempt? ==> from <= e.check <= e.at)
    ensures var now := if e.Attempt? then e.at else from;
            Describes(l, Queue(l, q, e), History(l, f, e), now)
    ensures Spaced(l, History(l, f, e))
  {
    if e.Attempt? {
      RecentIsTheWindow(l, f, e.check);
      var r := Recent(l, q, e.check);
      assert r == Recent(l, f, e.check);
      if Allowed(l, f, e.check) && e.failed {
        FailSpaced(l, f, e.check, e.at);
        PruneTwice(l, f, e.check, e.at);
        PruneThenFail(l, f, e.at, e.at);
      }
      var past := if Allowed(l, f, e.check) && e.failed then e.at else e.check;
      forall later | later >= e.at
        ensures Recent(l, Queue(l, q, e), later) == Recent(l, History(l, f, e), later)
      {
        PruneTwice(l, History(l, f, e), past, later);
      }
    }
  }

  lemma {:induction false} RunDescribes(l: Limits, q: seq<real>, f: seq<real>, events: seq<Event>, from: real,
                                        now: real)
    requires l.window >= 0.0 && Describes(l, q, f, from) && Spaced(l, f) && Ordered(events, from, now)
    ensures Describes(l, RunQueue(l, q, events), RunHistory(l, f, events), now) && Spaced(l, RunHistory(l, f, events))
    decreases |events|
  {
    if events != [] {
      NextDescribes(l, q, f, events[0], from);
      RunDescribes(l, Queue(l, q, events[0]), History(l, f, events[0]), events[1..],
                   if events[0].Attempt? then events[0].at else from, now);
    }
  }

  /** The pruned queue decides every sign-in as the full history would. */
  lemma PruningIsInvisible(l: Limits, events: seq<Event>, from: real, now: real)
    requires l.window >= 0.0 && Ordered(events, from, now)
    ensures var q, f := RunQueue(l, [], events), RunHistory(l, [], events);
            && (|Recent(l, q, now)| < l.max <==> Allowed(l, f, now))
            && |Recent(l, q, now)| == InWindow(l, f, now)
  {
    RunDescribes(l, [], [], events, from, now);
    RecentIsTheWindow(l, RunHistory(l, [], events), now);
  }

  /** How many failures fall in a closed interval. */
  function InInterval(f: seq<real>, start: real, length: real): nat
    decreases |f|
  {
    if f == [] then 0
    else InInterval(f[..|f| - 1], start, length) + (if start <= f[|f| - 1] <= start + length then 1 else 0)
  }

  lemma {:induction false} IntervalParts(a: seq<real>, b: seq<real>, start: real, length: real)
    ensures InInterval(a + b, start, length) == InInterval(a, start, length) + InInterval(b, start, length)
    ensures InInterval(b, start, length) <= |b|
    decreases |b|
  {
    if b == [] {
      assert a + b == a;
    } else {
      assert (a + b)[..|a + b| - 1] == a + b[..|b| - 1];
      IntervalParts(a, b[..|b| - 1], start, length);
    }
  }

  lemma {:induction false} NoneBefore(f: seq<real>, start: real, length: real)
    requires forall i :: 0 <= i < |f| ==> f[i] < start
    ensures InInterval(f, start, length) == 0
    decreases |f|
  {
    if f != [] {
      NoneBefore(f[..|f| - 1], start, length);
    }
  }

  lemma SpacedAt(l: Limits, f: seq<real>, i: nat, j: nat)
    requires Spaced(l, f) && i < |f| && j < |f|
    ensures i + l.max <= j ==> f[j] - f[i] > l.window
  {
  }

  lemma OlderOutside(l: Limits, f: seq<real>, start: real, k: nat)
    requires Spaced(l, f) && k < |f| && f[|f| - 1] <= start + l.window && (k > 0 ==> k + l.max <= |f|)
    ensures InInterval(f[..k], start, l.window) == 0
  {
    forall i | 0 <= i < k
      ensures f[..k][i] < start
    {
      SpacedAt(l, f, i, |f| - 1);
    }
    NoneBefore(f[..k], start, l.window);
  }

  /** With its newest failure inside, an interval as long as the window holds none but the last `max`. */
  lemma LastInside(l: Limits, f: seq<real>, start: real)
    requires Spaced(l, f) && f != [] && start <= f[|f| - 1] <= start + l.window
    ensures InInterval(f, start, l.window) <= l.max
  {
    var k := if |f| > l.max then |f| - l.max else 0;
    OlderOutside(l, f, start, k);
    IntervalParts(f[..k], f[k..], start, l.window);
    assert f == f[..k] + f[k..];
  }

  lemma {:induction false} SpacedFills(l: Limits, f: seq<real>, start: real)
    requires Spaced(l, f)
    ensures InInterval(f, start, l.window) <= l.max
    decreases |f|
  {
    if f != [] {
      if start <= f[|f| - 1] <= start + l.window {
        LastInside(l, f, start);
      } else {
        SpacedFills(l, f[..|f| - 1], start);
      }
    }
  }

  /** However sign-ins are spread, no stretch of time as long as the window, its ends included, sees more
      than `max` failures without a reset. */
  lemma AtMostMaxInAnyWindow(l: Limits, events: seq<Event>, from: real, now: real, start: real)
    requires l.window >= 0.0 && Ordered(events, from, now)
    ensures InInterval(RunHistory(l, [], events), start, l.window) <= l.max
  {
    RunDescribes(l, [], [], events, from, now);
    SpacedFills(l, RunHistory(l, [], events), start);
  }

  // --- how long to wait ---

  /** `max(1, int(q[0] + window - now))` */
  function Wait(l: Limits, q: seq<real>, now: real): int
    requires q != []
  {
    Max(1, (q[0] + l.window - now).Floor)
  }

  lemma WaitBounds(l: Limits, q: seq<real>, now: real)
    requires q != []
    ensures var left := q[0] + l.window - now;
            && Wait(l, q, now) >= 1 && left < Wait(l, q, now) as real + 1.0
            && (Wait(l, q, now) as real > left <==> left < 1.0)
  {
  }

  lemma QueueIsShort(l: Limits, f: seq<real>, now: real)
    requires Sorted(f) && Until(f, now) && Spaced(l, f)
    ensures |Recent(l, f, now)| <= l.max
  {
    RecentIsTheWindow(l, f, now);
    var k := |f| - |Recent(l, f, now)|;
    if k < |f| {
      SpacedAt(l, f, k, |f| - 1);
    }
  }

  /** A queue lets go of something exactly when its oldest failure leaves the window. */
  lemma ShorterWhenOldestLeaves(l: Limits, q: seq<real>, now: real)
    requires q != []
    ensures |Recent(l, q, now)| <= |q|
    ensures |Recent(l, q, now)| < |q| <==> q[0] < now - l.window
  {
    RecentNoLonger(l, q[1..], now);
  }

  lemma {:induction false} RecentNoLonger(l: Limits, q: seq<real>, now: real)
    ensures |Recent(l, q, now)| <= |q|
    decreases |q|
  {
    if q != [] {
      RecentNoLonger(l, q[1..], now);
    }
  }

  /** A full queue lets the next attempt pass as soon as its oldest failure leaves the window. */
  lemma AllowedAfter(l: Limits, f: seq<real>, now: real, d: real)
    requires Sorted(f) && l.max > 0 && |Recent(l, f, now)| == l.max && d >= 0.0
    ensures Allowed(l, f, now + d) <==> d > Recent(l, f, now)[0] + l.window - now
  {
    PruneTwice(l, f, now, now + d);
    RecentIsTheWindow(l, f, now + d);
    ShorterWhenOldestLeaves(l, Recent(l, f, now), now + d);
  }

  lemma BlockedQueue(l: Limits, events: seq<Event>, from: real, now: real)
    requires l.window >= 0.0 && Ordered(events, from, now) && !Allowed(l, RunHistory(l, [], events), now)
    ensures var f := RunHistory(l, [], events);
            Sorted(f) && |Recent(l, f, now)| == l.max && Recent(l, RunQueue(l, [], events), now) == Recent(l, f, now)
  {
    var f := RunHistory(l, [], events);
    RunDescribes(l, [], [], events, from, now);
    RecentIsTheWindow(l, f, now);
    QueueIsShort(l, f, now);
  }

  /** A client told to wait is allowed again, if nothing fails meanwhile, one second after the wait it was
      told; after exactly that wait only if less than a second was left. */
  lemma OneMoreSecondIsEnough(l: Limits, events: seq<Event>, from: real, now: real)
    requires l.window >= 0.0 && l.max > 0 && Ordered(events, from, now)
    requires !Allowed(l, RunHistory(l, [], events), now)
    ensures var f, q := RunHistory(l, [], events), Recent(l, RunQueue(l, [], events), now);
            && |q| == l.max
            && Allowed(l, f, now + (Wait(l, q, now) as real + 1.0))
            && (Allowed(l, f, now + Wait(l, q, now) as real) <==> q[0] + l.window - now < 1.0)
  {
    BlockedQueue(l, events, from, now);
    var f := RunHistory(l, [], events);
    var q := Recent(l, f, now);
    WaitBounds(l, q, now);
    AllowedAfter(l, f, now, Wait(l, q, now) as real);
    AllowedAfter(l, f, now, Wait(l, q, now) as real + 1.0);
  }

  class LoginRateLimiter {
    const limits: Limits
    var failures: map<Key, seq<real>>

    constructor (limits: Limits)
      ensures this.limits == limits && failures == map[]
    {
      this.limits, failures := limits, map[];
    }

    function QueueOf(key: Key): seq<real>
      reads this
    {
      if key in failures then failures[key] else []
    }

    method Prune(key: Key, now: real)
      modifies this
      ensures failures == old(failures)[key := Recent(limits, old(QueueOf(key)), now)]
    {
      var q := QueueOf(key);
      var cutoff := now - limits.window;
      while q != [] && q[0] < cutoff
        invariant Recent(limits, q, now) == Recent(limits, old(QueueOf(key)), now)
        decreases |q|
      {
        q := q[1..];
      }
      failures := failures[key := q];
    }

    /** `later`: the clock read again for the answer. */
    method RetryAfter(key: Key, now: real, later: real) returns (wait: int)
      requires limits.max > 0
      modifies this
      ensures failures == old(failures)[key := Recent(limits, old(QueueOf(key)), now)]
      ensures wait == if |QueueOf(key)| < limits.max then 0 else Wait(limits, QueueOf(key), later)
      ensures wait == 0 <==> |QueueOf(key)| < limits.max
    {
      Prune(key, now);
      var q := QueueOf(key);
      if |q| < limits.max {
        return 0;
      }
      wait := Max(1, (q[0] + limits.window - later).Floor);
    }

    method RecordFailure(key: Key, now: real, at: real)
      modifies this
      ensures failures == old(failures)[key := Recent(limits, old(QueueOf(key)), now) + [at]]
    {
      Prune(key, now);
      failures := failures[key := failures[key] + [at]];
    }

    method ResetKey(key: Key)
      modifies this
      ensures failures == old(failures) - {key}
    {
      failures := failures - {key};
    }

    /** A sign-in that fails or not: refused while the limit is reached, recorded if it fails. */
    method SignIn(key: Key, check: real, at: real, failed: bool) returns (refused: bool)
      requires limits.max > 0
      modifies this
      ensures QueueOf(key) == Queue(limits, old(QueueOf(key)), Attempt(check, at, failed))
      ensures refused <==> |Recent(limits, old(QueueOf(key)), check)| >= limits.max
      ensures forall other :: other != key ==> QueueOf(other) == old(QueueOf(other))
    {
      var wait := RetryAfter(key, check, check);
      refused := wait != 0;
      if !refused && failed {
        RecordFailure(key, at, at);
      }
    }
  }
}
