/**
 The in-memory sliding-window rate limiter (internal/middleware/ratelimit.go). The reference limiter
 never forgets an admitted request; the real one prunes on every call and in the background.
 */
module RateLaw {

  type Log = map<string, seq<int>>

  function TimesOf(log: Log, key: string): seq<int> {
    if key in log then log[key] else []
  }

  /** `t.After(windowStart)`, kept in order. */
  function After(times: seq<int>, start: int): seq<int> {
    if times == [] then []
    else
      var last := times[|times| - 1];
      After(times[..|times| - 1], start) + if last > start then [last] else []
  }

  // ---------- the two limiters ----------

  function Allow(log: Log, key: string, now: int, limit: int, window: int): (Log, bool) {
    var valid := After(TimesOf(log, key), now - window);
    if |valid| >= limit then (log[key := valid], false) else (log[key := valid + [now]], true)
  }

  function Cleanup(log: Log, now: int, window: int): Log {
    map k | k in log && After(log[k], now - window) != [] :: After(log[k], now - window)
  }

  /** A limiter that keeps every admitted request for ever. */
  function ReferenceAllow(history: Log, key: string, now: int, limit: int, window: int): (Log, bool) {
    if |After(TimesOf(history, key), now - window)| >= limit then (history, false)
    else (history[key := TimesOf(history, key) + [now]], true)
  }

  datatype Event = Request(key: string, at: int) | CleanupTick(at: int)

  function RunReal(log: Log, events: seq<Event>, limit: int, window: int): (Log, seq<bool>) {
    if events == [] then (log, [])
    else
      var before := RunReal(log, events[..|events| - 1], limit, window);
      match events[|events| - 1]
      case Request(key, at) =>
        var r := Allow(before.0, key, at, limit, window);
        (r.0, before.1 + [r.1])
      case CleanupTick(at) => (Cleanup(before.0, at, window), before.1)
  }

  function RunReference(history: Log, events: seq<Event>, limit: int, window: int): (Log, seq<bool>) {
    if events == [] then (history, [])
    else
      var before := RunReference(history, events[..|events| - 1], limit, window);
      match events[|events| - 1]
      case Request(key, at) =>
        var r := ReferenceAllow(before.0, key, at, limit, window);
        (r.0, before.1 + [r.1])
      case CleanupTick(_) => before
  }

  /** The clock never goes backwards. */
  predicate Ordered(events: seq<Event>) {
    forall i, j :: 0 <= i <= j < |events| ==> events[i].at <= events[j].at
  }

  // ---------- pruning ----------

  lemma {:induction false} AfterSnoc(times: seq<int>, t: int, start: int)
    ensures After(times + [t], start) == After(times, start) + if t > start then [t] else []
  {
    assert (times + [t])[..|times|] == times;
  }

  /** Pruning at an earlier window start first makes no difference. */
  lemma {:induction false} AfterAfter(times: seq<int>, early: int, late: int)
    requires early <= late
    ensures After(After(times, early), late) == After(times, late)
  {
    if times != [] {
      var front, last := times[..|times| - 1], times[|times| - 1];
      AfterAfter(front, early, late);
      if last > early {
        AfterSnoc(After(front, early), last, late);
      } else {
        assert After(times, early) == After(front, early);
      }
    }
  }

  lemma {:induction false} AfterShrinks(times: seq<int>, start: int)
    ensures |After(times, start)| <= |times|
  {
    if times != [] {
      AfterShrinks(times[..|times| - 1], start);
    }
  }

  /** Two lists look alike from a window start. */
  predicate SameView(a: seq<int>, b: seq<int>, start: int) {
    After(a, start) == After(b, start)
  }

  /** What survives agrees with the full history on everything a request at `now` or later can see. */
  ghost predicate Agrees(log: Log, history: Log, now: int, window: int) {
    forall k :: SameView(TimesOf(log, k), TimesOf(history, k), now - window)
  }

  lemma SameViewLater(a: seq<int>, b: seq<int>, early: int, late: int)
    requires SameView(a, b, early) && early <= late
    ensures SameView(a, b, late)
  {
    AfterAfter(a, early, late);
    AfterAfter(b, early, late);
  }

  lemma AgreesLater(log: Log, history: Log, now: int, later: int, window: int)
    requires Agrees(log, history, now, window) && now <= later
    ensures Agrees(log, history, later, window)
  {
    forall k ensures SameView(TimesOf(log, k), TimesOf(history, k), later - window) {
      assert SameView(TimesOf(log, k), TimesOf(history, k), now - window);
      SameViewLater(TimesOf(log, k), TimesOf(history, k), now - window, later - window);
    }
  }

  /** Pruning a list, and adding the same time to both, changes no view. */
  lemma PrunedView(a: seq<int>, b: seq<int>, start: int, now: int)
    requires SameView(a, b, start)
    ensures SameView(After(a, start), b, start) && SameView(After(a, start) + [now], b + [now], start)
  {
    AfterAfter(a, start, start);
    AfterSnoc(After(a, start), now, start);
    AfterSnoc(b, now, start);
  }

  lemma AllowAgrees(log: Log, history: Log, key: string, now: int, limit: int, window: int)
    requires Agrees(log, history, now, window)
    ensures Allow(log, key, now, limit, window).1 == ReferenceAllow(history, key, now, limit, window).1
    ensures Agrees(Allow(log, key, now, limit, window).0, ReferenceAllow(history, key, now, limit, window).0, now, window)
  {
    var start := now - window;
    assert SameView(TimesOf(log, key), TimesOf(history, key), start);
    PrunedView(TimesOf(log, key), TimesOf(history, key), start, now);
    var log', history' := Allow(log, key, now, limit, window).0, ReferenceAllow(history, key, now, limit, window).0;
    forall k ensures SameView(TimesOf(log', k), TimesOf(history', k), start) {
      assert SameView(TimesOf(log, k), TimesOf(history, k), start);
    }
  }

  lemma CleanupAgrees(log: Log, history: Log, now: int, window: int)
    requires Agrees(log, history, now, window)
    ensures Agrees(Cleanup(log, now, window), history, now, window)
  {
    forall k ensures SameView(TimesOf(Cleanup(log, now, window), k), TimesOf(history, k), now - window) {
      assert SameView(TimesOf(log, k), TimesOf(history, k), now - window);
      PrunedView(TimesOf(log, k), TimesOf(history, k), now - window, now);
    }
  }

  // ---------- main results ----------

  /**
   Forgetting is unobservable. However clean-ups are interleaved with requests, every decision is the
   one the limiter that never forgets would have made.
   */
  lemma {:induction false} PruningIsUnobservable(events: seq<Event>, limit: int, window: int, later: int)
    requires Ordered(events) && forall i :: 0 <= i < |events| ==> events[i].at <= later
    ensures RunReal(map[], events, limit, window).1 == RunReference(map[], events, limit, window).1
    ensures Agrees(RunReal(map[], events, limit, window).0, RunReference(map[], events, limit, window).0, later, window)
  {
    if events != [] {
      var front, last := events[..|events| - 1], events[|events| - 1];
      PruningIsUnobservable(front, limit, window, last.at);
      var log, history := RunReal(map[], front, limit, window).0, RunReference(map[], front, limit, window).0;
      match last {
        case Request(key, at) => AllowAgrees(log, history, key, at, limit, window);
        case CleanupTick(at) => CleanupAgrees(log, history, at, window);
      }
      AgreesLater(RunReal(map[], events, limit, window).0, RunReference(map[], events, limit, window).0, last.at, later, window);
    }
  }

  /** Admitted requests in the half-open window (end - window, end]. */
  function InWindow(times: seq<int>, end: int, window: int): nat {
    if times == [] then 0
    else
      var last := times[|times| - 1];
      InWindow(times[..|times| - 1], end, window) + if end - window < last <= end then 1 else 0
  }

  lemma {:induction false} InWindowBound(times: seq<int>, end: int, now: int, window: int)
    requires now <= end
    ensures InWindow(times, end, window) <= |After(times, now - window)|
  {
    if times != [] {
      InWindowBound(times[..|times| - 1], end, now, window);
    }
  }

  /** The history of the limiter that never forgets is within the limit in every window. */
  lemma {:induction false} ReferenceWindowBound(events: seq<Event>, limit: int, window: int, key: string, end: int)
    requires Ordered(events)
    ensures InWindow(TimesOf(RunReference(map[], events, limit, window).0, key), end, window) <= Budget(limit)
  {
    if events != [] {
      var front, last := events[..|events| - 1], events[|events| - 1];
      ReferenceWindowBound(front, limit, window, key, end);
      var before := RunReference(map[], front, limit, window).0;
      if last.Request? && last.key == key && ReferenceAllow(before, key, last.at, limit, window).1 {
        var times := TimesOf(before, key);
        assert (times + [last.at])[..|times|] == times;
        if last.at <= end {
          InWindowBound(times, end, last.at, window);
        }
      }
    }
  }

  function Budget(limit: int): nat {
    if limit > 0 then limit else 0
  }

  function Requests(events: seq<Event>): nat {
    if events == [] then 0 else Requests(events[..|events| - 1]) + if events[|events| - 1].Request? then 1 else 0
  }

  /** When requests of a key were let through, one decision belonging to each request. */
  function AdmittedAt(events: seq<Event>, decisions: seq<bool>, key: string): seq<int>
    requires |decisions| == Requests(events)
  {
    if events == [] then []
    else
      var front, last := events[..|events| - 1], events[|events| - 1];
      match last
      case CleanupTick(_) => AdmittedAt(front, decisions, key)
      case Request(k, at) =>
        var n := |decisions| - 1;
        AdmittedAt(front, decisions[..n], key) + if k == key && decisions[n] then [at] else []
  }

  /** The limiter that never forgets remembers exactly what it let through. */
  lemma {:induction false} HistoryIsAdmitted(events: seq<Event>, limit: int, window: int, key: string)
    ensures var r := RunReference(map[], events, limit, window);
            |r.1| == Requests(events) && TimesOf(r.0, key) == AdmittedAt(events, r.1, key)
  {
    if events != [] {
      var front, last := events[..|events| - 1], events[|events| - 1];
      HistoryIsAdmitted(front, limit, window, key);
      var before := RunReference(map[], front, limit, window);
      if last.Request? {
        var r := RunReference(map[], events, limit, window);
        assert r.1[..|r.1| - 1] == before.1;
      }
    }
  }

  /**
   For every key and every instant, at most `limit` requests were let through in the window ending there,
   by the decisions of the real limiter and however its clean-ups fell.
   */
  lemma AnyWindowBound(events: seq<Event>, limit: int, window: int, key: string, end: int)
    requires Ordered(events)
    ensures var decisions := RunReal(map[], events, limit, window).1;
            |decisions| == Requests(events) && InWindow(AdmittedAt(events, decisions, key), end, window) <= Budget(limit)
  {
    if events != [] {
      assert forall i :: 0 <= i < |events| ==> events[i].at <= events[|events| - 1].at;
    }
    PruningIsUnobservable(events, limit, window, if events == [] then 0 else events[|events| - 1].at);
    HistoryIsAdmitted(events, limit, window, key);
    ReferenceWindowBound(events, limit, window, key, end);
  }

  predicate UpTo(times: seq<int>, later: int) {
    forall i :: 0 <= i < |times| ==> times[i] <= later
  }

  /** No admitted time lies after the last event. */
  lemma {:induction false} AdmittedBefore(events: seq<Event>, decisions: seq<bool>, key: string, later: int)
    requires |decisions| == Requests(events) && forall i :: 0 <= i < |events| ==> events[i].at <= later
    ensures UpTo(AdmittedAt(events, decisions, key), later)
  {
    if events != [] {
      var front, last := events[..|events| - 1], events[|events| - 1];
      match last {
        case CleanupTick(_) => AdmittedBefore(front, decisions, key, later);
        case Request(k, at) =>
          var n := |decisions| - 1;
          AdmittedBefore(front, decisions[..n], key, later);
          assert at == events[|events| - 1].at <= later;
          if k == key && decisions[n] {
            assert AdmittedAt(events, decisions, key) == AdmittedAt(front, decisions[..n], key) + [at];
          } else {
            assert AdmittedAt(events, decisions, key) == AdmittedAt(front, decisions[..n], key) + [];
          }
      }
    }
  }

  lemma {:induction false} AfterIsInWindow(times: seq<int>, now: int, window: int)
    requires UpTo(times, now)
    ensures |After(times, now - window)| == InWindow(times, now, window)
  {
    if times != [] {
      AfterIsInWindow(times[..|times| - 1], now, window);
    }
  }

  lemma {:induction false} AfterMembers(times: seq<int>, start: int, t: int)
    ensures t in After(times, start) <==> t in times && t > start
  {
    if times != [] {
      AfterMembers(times[..|times| - 1], start, t);
      assert times == times[..|times| - 1] + [times[|times| - 1]];
    }
  }

  /** A clean-up forgets exactly the expired times, and the keys that have no other. */
  lemma CleanupIs(log: Log, now: int, window: int, key: string, t: int)
    ensures t in TimesOf(Cleanup(log, now, window), key) <==> t in TimesOf(log, key) && t > now - window
    ensures key in Cleanup(log, now, window) ==> Cleanup(log, now, window)[key] != []
  {
    AfterMembers(TimesOf(log, key), now - window, t);
  }

  /**
   The decision exactly: a request is let through if and only if fewer than `limit` requests of its key
   were let through in the window ending now, however clean-ups fell.
   */
  lemma AllowedIff(events: seq<Event>, limit: int, window: int, key: string, at: int)
    requires Ordered(events) && forall i :: 0 <= i < |events| ==> events[i].at <= at
    ensures var decisions := RunReal(map[], events, limit, window).1;
      && |decisions| == Requests(events)
      && RunReal(map[], events + [Request(key, at)], limit, window).1
         == decisions + [InWindow(AdmittedAt(events, decisions, key), at, window) < limit]
  {
    var r := RunReal(map[], events, limit, window);
    PruningIsUnobservable(events, limit, window, at);
    HistoryIsAdmitted(events, limit, window, key);
    AllowAgrees(r.0, RunReference(map[], events, limit, window).0, key, at, limit, window);
    AdmittedBefore(events, r.1, key, at);
    AfterIsInWindow(AdmittedAt(events, r.1, key), at, window);
    assert (events + [Request(key, at)])[..|events|] == events;
  }

  /** A stored list never holds more than `limit` times, and no admitted time is ever invented. */
  lemma {:induction false} StoredListsStaySmall(events: seq<Event>, limit: int, window: int, key: string)
    ensures |TimesOf(RunReal(map[], events, limit, window).0, key)| <= Budget(limit)
  {
    if events != [] {
      var front, last := events[..|events| - 1], events[|events| - 1];
      StoredListsStaySmall(front, limit, window, key);
      LogStep(events, limit, window);
      StaysSmall(RunReal(map[], front, limit, window).0, last, limit, window, key);
    }
  }

  function Happen(log: Log, e: Event, limit: int, window: int): Log {
    match e
    case Request(key, at) => Allow(log, key, at, limit, window).0
    case CleanupTick(at) => Cleanup(log, at, window)
  }

  lemma LogStep(events: seq<Event>, limit: int, window: int)
    requires events != []
    ensures RunReal(map[], events, limit, window).0
         == Happen(RunReal(map[], events[..|events| - 1], limit, window).0, events[|events| - 1], limit, window)
  {
  }

  lemma StaysSmall(log: Log, e: Event, limit: int, window: int, key: string)
    requires |TimesOf(log, key)| <= Budget(limit)
    ensures |TimesOf(Happen(log, e, limit, window), key)| <= Budget(limit)
  {
    AfterShrinks(TimesOf(log, key), e.at - window);
  }
}

/** The limiter object. `trace` and `decisions` record the calls made and their answers. */
module RateLimit {
  import opened RateLaw

  class RateLimiter {
    var requests: Log
    const limit: int
    const window: int
    ghost var trace: seq<Event>
    ghost var decisions: seq<bool>

    constructor (limit: int, window: int)
      ensures Valid() && trace == [] && decisions == [] && this.limit == limit && this.window == window
    {
      this.limit, this.window, requests, trace, decisions := limit, window, map[], [], [];
    }

    ghost predicate Valid()
      reads this
    {
      (requests, decisions) == RunReal(map[], trace, limit, window)
    }

    /** The object's decisions so far are those of the limiter that never forgets, on the events so far. */
    lemma NeverForgets()
      requires Valid() && Ordered(trace)
      ensures decisions == RunReference(map[], trace, limit, window).1
    {
      if trace != [] {
        PruningIsUnobservable(trace, limit, window, trace[|trace| - 1].at);
      }
    }

    /** So in every window the object let at most `limit` requests of a key through. */
    lemma KeepsTheLimit(key: string, end: int)
      requires Valid() && Ordered(trace)
      ensures |decisions| == Requests(trace) && InWindow(AdmittedAt(trace, decisions, key), end, window) <= Budget(limit)
    {
      NeverForgets();
      HistoryIsAdmitted(trace, limit, window, key);
      ReferenceWindowBound(trace, limit, window, key, end);
    }

    method Prune(times: seq<int>, start: int) returns (valid: seq<int>)
      ensures valid == After(times, start)
    {
      valid := [];
      for i := 0 to |times|
        invariant valid == After(times[..i], start)
      {
        if times[i] > start {
          valid := valid + [times[i]];
        }
        assert times[..i + 1][..i] == times[..i];
      }
      assert times[..|times|] == times;
    }

    method Allow(key: string, now: int) returns (allowed: bool)
      requires Valid()
      modifies this
      ensures Valid() && trace == old(trace) + [Request(key, now)] && decisions == old(decisions) + [allowed]
      ensures (requests, allowed) == RateLaw.Allow(old(requests), key, now, limit, window)
    {
      var times := [];
      if key in requests {
        times := requests[key];
      }
      var valid := Prune(times, now - window);
      if |valid| >= limit {
        requests := requests[key := valid];
        allowed := false;
      } else {
        requests := requests[key := valid + [now]];
        allowed := true;
      }
      assert (trace + [Request(key, now)])[..|trace|] == trace;
      trace := trace + [Request(key, now)];
      decisions := decisions + [allowed];
    }

    /** One tick of the background clean-up. */
    method Cleanup(now: int)
      requires Valid()
      modifies this
      ensures Valid() && trace == old(trace) + [CleanupTick(now)] && decisions == old(decisions)
      ensures requests == RateLaw.Cleanup(old(requests), now, window)
    {
      PruneAll(now);
      assert (trace + [CleanupTick(now)])[..|trace|] == trace;
      trace := trace + [CleanupTick(now)];
    }

    method PruneAll(now: int)
      modifies `requests
      ensures requests == RateLaw.Cleanup(old(requests), now, window)
    {
      ghost var before := requests;
      var rest := requests.Keys;
      while rest != {}
        invariant rest <= requests.Keys <= before.Keys
        invariant forall k :: k in rest ==> requests[k] == before[k]
        invariant forall k :: k in before && k !in rest ==>
                    (k in requests <==> After(before[k], now - window) != [])
                    && (k in requests ==> requests[k] == After(before[k], now - window))
        decreases |rest|
      {
        var key :| key in rest;
        rest := rest - {key};
        var valid := Prune(requests[key], now - window);
        if |valid| == 0 {
          requests := requests - {key};
        } else {
          requests := requests[key := valid];
        }
      }
    }
  }
}
