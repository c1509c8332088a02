/**
 * The rolling-window rate limiter (server/src/ratelimit.py): lazily pruned deques per
 * (key, event), a global cleanup and a cap on tracked keys, against the naive log of every
 * admitted call. Times are nondecreasing reals. Everything holds for any table of limits.
 */
module RateLimit {
  import opened Basics

  const MAX_TRACKED: nat := 10_000

  datatype Limit = Limit(count: nat, window: real)

  type Limits = map<string, Limit>
  type Events = map<string, seq<real>>
  type Table = map<string, Events>

  function Deque(c: Table, key: string, event: string): seq<real> {
    if key in c && event in c[key] then c[key][event] else []
  }

  /** What the popping loop leaves: everything from the first time not before the cutoff. */
  function DropBefore(q: seq<real>, cutoff: real): seq<real> {
    if q != [] && q[0] < cutoff then DropBefore(q[1..], cutoff) else q
  }

  function CheckStep(limits: Limits, c: Table, key: string, event: string, now: real): (r: (Table, bool)) {
    if event !in limits then (c, true)
    else if key !in c && |c| >= MAX_TRACKED then (c, false)
    else
      var events := if key in c then c[key] else map[];
      var q := DropBefore(Deque(c, key, event), now - limits[event].window);
      if |q| >= limits[event].count then (c[key := events[event := q]], false)
      else (c[key := events[event := q + [now]]], true)
  }

  function KeepFresh(q: seq<real>, now: real, maxWindow: real): seq<real> {
    if q == [] then []
    else KeepFresh(q[..|q| - 1], now, maxWindow) + (if now - q[|q| - 1] < maxWindow then [q[|q| - 1]] else [])
  }

  function CleanEvents(events: Events, now: real, maxWindow: real): Events {
    map e | e in events && KeepFresh(events[e], now, maxWindow) != [] :: KeepFresh(events[e], now, maxWindow)
  }

  function CleanTable(c: Table, now: real, maxWindow: real): Table {
    map k | k in c && CleanEvents(c[k], now, maxWindow) != map[] :: CleanEvents(c[k], now, maxWindow)
  }

  /** The cleanup, with its eviction branch: some keys are forgotten when too many are tracked. */
  ghost predicate CleanupStep(c: Table, now: real, maxWindow: real, c': Table) {
    var cleaned := CleanTable(c, now, maxWindow);
    if |cleaned| <= MAX_TRACKED then c' == cleaned
    else |c'| == MAX_TRACKED && forall k :: k in c' ==> k in cleaned && c'[k] == cleaned[k]
  }

  /** The module's counters. */
  class Limiter {
    const limits: Limits
    var counters: Table

    constructor (limits: Limits)
      ensures this.limits == limits && counters == map[]
    {
      this.limits := limits;
      counters := map[];
    }

    method CheckKey(key: string, event: string, now: real) returns (allowed: bool)
      modifies this
      ensures (counters, allowed) == CheckStep(limits, old(counters), key, event, now)
    {
      if event !in limits {
        return true;
      }
      if key !in counters && |counters| >= MAX_TRACKED {
        return false;
      }
      var events := if key in counters then counters[key] else map[];
      var timestamps := if event in events then events[event] else [];
      var cutoff := now - limits[event].window;
      while timestamps != [] && timestamps[0] < cutoff
        invariant DropBefore(timestamps, cutoff) == DropBefore(Deque(old(counters), key, event), cutoff)
        decreases |timestamps|
      {
        timestamps := timestamps[1..];
      }
      allowed := |timestamps| < limits[event].count;
      if allowed {
        timestamps := timestamps + [now];
      }
      counters := counters[key := events[event := timestamps]];
    }

    method MaxWindow() returns (m: real)
      requires limits != map[]
      ensures IsMaxWindow(limits, m)
    {
      var e0 :| e0 in limits;
      m := limits[e0].window;
      var todo := limits.Keys;
      while todo != {}
        invariant todo <= limits.Keys
        invariant exists e :: e in limits && limits[e].window == m
        invariant forall e :: e in limits && e !in todo ==> limits[e].window <= m
        decreases |todo|
      {
        var e :| e in todo;
        if limits[e].window > m {
          m := limits[e].window;
        }
        todo := todo - {e};
      }
    }

    method FreshTimes(q: seq<real>, now: real, maxWindow: real) returns (kept: seq<real>)
      ensures kept == KeepFresh(q, now, maxWindow)
    {
      kept := [];
      for i := 0 to |q|
        invariant kept == KeepFresh(q[..i], now, maxWindow)
      {
        assert q[..i + 1][..i] == q[..i];
        if now - q[i] < maxWindow {
          kept := kept + [q[i]];
        }
      }
      assert q[..|q|] == q;
    }

    method CleanOneKey(key: string, now: real, maxWindow: real)
      requires key in counters
      modifies this
      ensures counters == old(counters)[key := CleanEvents(old(counters)[key], now, maxWindow)]
    {
      var events := counters[key];
      var todo := events.Keys;
      while todo != {}
        invariant counters == old(counters)
        invariant todo <= old(counters)[key].Keys
        invariant forall e :: e in todo ==> e in events && events[e] == old(counters)[key][e]
        invariant forall e :: e in events ==> e in old(counters)[key]
        invariant forall e :: e in old(counters)[key] && e !in todo ==>
                    if KeepFresh(old(counters)[key][e], now, maxWindow) == [] then e !in events
                    else e in events && events[e] == KeepFresh(old(counters)[key][e], now, maxWindow)
        decreases |todo|
      {
        var e :| e in todo;
        var kept := FreshTimes(events[e], now, maxWindow);
        if kept != [] {
          events := events[e := kept];
        } else {
          events := events - {e};
        }
        todo := todo - {e};
      }
      assert events == CleanEvents(counters[key], now, maxWindow);
      counters := counters[key := events];
    }

    /** Prunes every key in place and collects those left without events. */
    method CleanKeys(now: real, maxWindow: real) returns (stale: set<string>)
      modifies this
      ensures counters.Keys == old(counters).Keys
      ensures forall k :: k in counters ==> counters[k] == CleanEvents(old(counters)[k], now, maxWindow)
      ensures forall k :: k in stale <==> k in counters && counters[k] == map[]
    {
      hide CleanEvents, KeepFresh;
      ghost var before := counters;
      stale := {};
      var todo := counters.Keys;
      while todo != {}
        invariant todo <= before.Keys && counters.Keys == before.Keys
        invariant forall k :: k in before ==>
                    counters[k] == if k in todo then before[k] else CleanEvents(before[k], now, maxWindow)
        invariant forall k :: k in stale <==> k in counters && k !in todo && counters[k] == map[]
        decreases |todo|
      {
        var k :| k in todo;
        ghost var last := counters;
        CleanOneKey(k, now, maxWindow);
        assert counters == last[k := CleanEvents(before[k], now, maxWindow)];
        if counters[k] == map[] {
          stale := stale + {k};
        }
        todo := todo - {k};
      }
    }

    /** The eviction: which keys go is left open. */
    method Evict()
      modifies this
      ensures forall k :: k in counters ==> k in old(counters) && counters[k] == old(counters)[k]
      ensures if |old(counters)| <= MAX_TRACKED then counters == old(counters) else |counters| == MAX_TRACKED
    {
      while |counters| > MAX_TRACKED
        invariant forall k :: k in counters ==> k in old(counters) && counters[k] == old(counters)[k]
        invariant if |old(counters)| <= MAX_TRACKED then counters == old(counters) else |counters| >= MAX_TRACKED
        decreases |counters|
      {
        var k :| k in counters;
        var rest := counters - {k};
        assert rest.Keys == counters.Keys - {k};
        assert |rest| == |rest.Keys| && |counters| == |counters.Keys|;
        counters := rest;
      }
    }

    method Cleanup(now: real)
      requires limits != map[]
      modifies this
      ensures exists m :: IsMaxWindow(limits, m) && CleanupStep(old(counters), now, m, counters)
    {
      var maxWindow := MaxWindow();
      var stale := CleanKeys(now, maxWindow);
      counters := counters - stale;
      assert counters == CleanTable(old(counters), now, maxWindow);
      Evict();
      assert CleanupStep(old(counters), now, maxWindow, counters);
    }
  }

  ghost predicate IsMaxWindow(limits: Limits, m: real) {
    && (exists e :: e in limits && limits[e].window == m)
    && (forall e :: e in limits ==> limits[e].window <= m)
  }

  // ── Runs ──────────────────────────────────────────────────────────────────

  datatype Admission = Admission(key: string, event: string, time: real)

  /** The limiter with the naive log beside it: every limited call ever admitted, in order. */
  datatype World = World(counters: Table, log: seq<Admission>, clock: real, lastCleanup: real)

  datatype Op = Check(key: string, event: string, now: real) | Cleanup(now: real)

  ghost predicate Next(limits: Limits, m: real, w: World, op: Op, w': World) {
    && w.clock <= op.now == w'.clock
    && match op
       case Check(key, event, now) =>
         var r := CheckStep(limits, w.counters, key, event, now);
         w' == World(r.0, if r.1 && event in limits then w.log + [Admission(key, event, now)] else w.log, now, w.lastCleanup)
       case Cleanup(now) =>
         && CleanupStep(w.counters, now, m, w'.counters)
         && w'.log == w.log && w'.lastCleanup == now
  }

  ghost predicate IsRun(limits: Limits, m: real, ws: seq<World>, ops: seq<Op>) {
    && IsMaxWindow(limits, m)
    && |ws| == |ops| + 1
    && ws[0].counters == map[] && ws[0].log == [] && ws[0].lastCleanup == ws[0].clock
    && forall i :: 0 <= i < |ops| ==> Next(limits, m, ws[i], ops[i], ws[i + 1])
  }

  /** The admitted times of one (key, event). */
  function Times(log: seq<Admission>, key: string, event: string): seq<real> {
    if log == [] then []
    else
      var a := log[|log| - 1];
      Times(log[..|log| - 1], key, event) + (if a.key == key && a.event == event then [a.time] else [])
  }

  ghost predicate Sorted(q: seq<real>) {
    forall i, j :: 0 <= i < j < |q| ==> q[i] <= q[j]
  }

  /** Any count + 1 consecutive admissions span at least the window. */
  ghost predicate Spread(q: seq<real>, limit: Limit) {
    forall i, j :: 0 <= i && j == i + limit.count && j < |q| ==> q[i] + limit.window <= q[j]
  }

  /** The deque is a tail of the admitted times; what it lacks is out of every later window. */
  ghost predicate IsRecentTail(q: seq<real>, all: seq<real>, window: real, w: World, m: real) {
    && |q| <= |all| && q == all[|all| - |q|..]
    && forall i :: 0 <= i < |all| - |q| ==> all[i] < w.clock - window || all[i] <= w.lastCleanup - m
  }

  ghost predicate TimesOk(q: seq<real>, all: seq<real>, limit: Limit, m: real, w: World) {
    && Sorted(all)
    && (forall i :: 0 <= i < |all| ==> all[i] <= w.clock)
    && IsRecentTail(q, all, limit.window, w, m) && Spread(all, limit)
  }

  ghost predicate KeyOk(limits: Limits, m: real, w: World, key: string, event: string) {
    event in limits ==> TimesOk(Deque(w.counters, key, event), Times(w.log, key, event), limits[event], m, w)
  }

  ghost predicate Inv(limits: Limits, m: real, w: World) {
    && |w.counters| <= MAX_TRACKED
    && w.lastCleanup <= w.clock
    && forall key, event :: KeyOk(limits, m, w, key, event)
  }

  lemma {:induction false} DropBeforeIsTail(q: seq<real>, cutoff: real)
    ensures var r := DropBefore(q, cutoff);
            && |r| <= |q| && r == q[|q| - |r|..]
            && (forall i :: 0 <= i < |q| - |r| ==> q[i] < cutoff)
            && (r != [] ==> cutoff <= r[0])
  {
    if q != [] && q[0] < cutoff {
      DropBeforeIsTail(q[1..], cutoff);
      var r := DropBefore(q, cutoff);
      forall i | 0 <= i < |q| - |r| ensures q[i] < cutoff {
        if i > 0 { assert q[i] == q[1..][i - 1]; }
      }
      assert r == q[1..][|q| - 1 - |r|..];
    }
  }

  lemma {:induction false} KeepFreshIsTail(q: seq<real>, now: real, maxWindow: real)
    requires Sorted(q)
    ensures var r := KeepFresh(q, now, maxWindow);
            && |r| <= |q| && r == q[|q| - |r|..]
            && (forall i :: 0 <= i < |q| - |r| ==> q[i] <= now - maxWindow)
  {
    if q != [] {
      var front, last := q[..|q| - 1], q[|q| - 1];
      if now - last < maxWindow {
        KeepFreshIsTail(front, now, maxWindow);
        FreshSnoc(front, last, KeepFresh(front, now, maxWindow), now - maxWindow);
        assert front + [last] == q;
      } else {
        NothingFresh(q, now, maxWindow);
      }
    }
  }

  lemma FreshSnoc(front: seq<real>, last: real, f: seq<real>, bound: real)
    requires |f| <= |front| && f == front[|front| - |f|..]
    requires forall i :: 0 <= i < |front| - |f| ==> front[i] <= bound
    ensures f + [last] == (front + [last])[|front| - |f|..]
    ensures forall i :: 0 <= i < |front| - |f| ==> (front + [last])[i] <= bound
  {
  }

  lemma {:induction false} NothingFresh(q: seq<real>, now: real, maxWindow: real)
    requires forall i :: 0 <= i < |q| ==> q[i] <= now - maxWindow
    ensures KeepFresh(q, now, maxWindow) == []
  {
    if q != [] { NothingFresh(q[..|q| - 1], now, maxWindow); }
  }

  lemma {:induction false} KeepFreshAreFresh(q: seq<real>, now: real, maxWindow: real, i: nat)
    requires i < |KeepFresh(q, now, maxWindow)|
    ensures now - KeepFresh(q, now, maxWindow)[i] < maxWindow
  {
    if i < |KeepFresh(q[..|q| - 1], now, maxWindow)| {
      KeepFreshAreFresh(q[..|q| - 1], now, maxWindow, i);
    }
  }

  lemma TimesSnoc(log: seq<Admission>, a: Admission, key: string, event: string)
    ensures Times(log + [a], key, event)
            == Times(log, key, event) + (if a.key == key && a.event == event then [a.time] else [])
  {
    assert (log + [a])[..|log|] == log;
  }

  /** The one (key, event) a check touches: its deque pruned to the window is still a tail. */
  lemma PrunedTail(q: seq<real>, all: seq<real>, window: real, w: World, m: real, now: real)
    requires IsRecentTail(q, all, window, w, m) && w.clock <= now
    ensures var r := DropBefore(q, now - window);
            && |r| <= |all| && r == all[|all| - |r|..]
            && forall i :: 0 <= i < |all| - |r| ==> all[i] < now - window || all[i] <= w.lastCleanup - m
  {
    DropBeforeIsTail(q, now - window);
    var r := DropBefore(q, now - window);
    assert r == all[|all| - |r|..];
    forall i | 0 <= i < |all| - |r| ensures all[i] < now - window || all[i] <= w.lastCleanup - m {
      if i >= |all| - |q| { assert all[i] == q[i - (|all| - |q|)]; }
    }
  }

  /** An admission keeps the spread: fewer than count times are within the window before it. */
  lemma AdmissionKeepsSpread(all: seq<real>, limit: Limit, kept: nat, now: real)
    requires Spread(all, limit) && kept < limit.count && kept <= |all|
    requires forall i :: 0 <= i < |all| - kept ==> all[i] <= now - limit.window
    ensures Spread(all + [now], limit)
  {
    forall i, j | 0 <= i && j == i + limit.count && j < |all + [now]|
      ensures (all + [now])[i] + limit.window <= (all + [now])[j]
    {
      if j < |all| { assert all[i] + limit.window <= all[j]; }
    }
  }

  /** What a check does to the deque it looks at. */
  lemma CheckedDeque(limits: Limits, m: real, w: World, op: Op, w': World)
    requires op.Check? && Next(limits, m, w, op, w')
    requires op.event in limits && (op.key in w.counters || |w.counters| < MAX_TRACKED)
    ensures var r := DropBefore(Deque(w.counters, op.key, op.event), op.now - limits[op.event].window);
            var admitted := |r| < limits[op.event].count;
            && Deque(w'.counters, op.key, op.event) == (if admitted then r + [op.now] else r)
            && Times(w'.log, op.key, op.event) == Times(w.log, op.key, op.event) + (if admitted then [op.now] else [])
  {
    hide DropBefore, Times;
    TimesSnoc(w.log, Admission(op.key, op.event, op.now), op.key, op.event);
    assert Times(w.log, op.key, op.event) + [] == Times(w.log, op.key, op.event);
  }

  lemma CheckedTimesOk(q: seq<real>, all: seq<real>, limit: Limit, m: real, w: World, w': World)
    requires TimesOk(q, all, limit, m, w) && limit.window <= m
    requires w.lastCleanup == w'.lastCleanup <= w.clock <= w'.clock
    ensures var r := DropBefore(q, w'.clock - limit.window);
            if |r| < limit.count then TimesOk(r + [w'.clock], all + [w'.clock], limit, m, w')
            else TimesOk(r, all, limit, m, w')
  {
    hide DropBefore;
    PrunedTail(q, all, limit.window, w, m, w'.clock);
    var r := DropBefore(q, w'.clock - limit.window);
    if |r| < limit.count { AdmissionKeepsSpread(all, limit, |r|, w'.clock); }
    hide Spread;
  }

  lemma CheckedKeyOk(limits: Limits, m: real, w: World, op: Op, w': World)
    requires Inv(limits, m, w) && IsMaxWindow(limits, m) && op.Check? && Next(limits, m, w, op, w')
    requires op.event in limits && (op.key in w.counters || |w.counters| < MAX_TRACKED)
    ensures KeyOk(limits, m, w', op.key, op.event)
  {
    hide Inv, Next, IsMaxWindow, DropBefore, Times, Deque, TimesOk;
    CheckedDeque(limits, m, w, op, w');
    CheckBegins(limits, m, w, op, w');
    var all := Times(w.log, op.key, op.event);
    assert all + [] == all;
    CheckedTimesOk(Deque(w.counters, op.key, op.event), all, limits[op.event], m, w, w');
  }

  lemma CheckBegins(limits: Limits, m: real, w: World, op: Op, w': World)
    requires Inv(limits, m, w) && IsMaxWindow(limits, m) && op.Check? && Next(limits, m, w, op, w') && op.event in limits
    ensures TimesOk(Deque(w.counters, op.key, op.event), Times(w.log, op.key, op.event), limits[op.event], m, w)
    ensures limits[op.event].window <= m && w.lastCleanup == w'.lastCleanup <= w.clock <= w'.clock == op.now
  {
    hide CheckStep, Times, Deque, TimesOk;
    assert KeyOk(limits, m, w, op.key, op.event);
  }

  /** A check leaves every other deque, and its admitted times, alone. */
  lemma OtherDeque(limits: Limits, m: real, w: World, op: Op, w': World, key: string, event: string)
    requires op.Check? && Next(limits, m, w, op, w')
    requires (key, event) != (op.key, op.event)
             || !(event in limits && (key in w.counters || |w.counters| < MAX_TRACKED))
    ensures Deque(w'.counters, key, event) == Deque(w.counters, key, event)
    ensures Times(w'.log, key, event) == Times(w.log, key, event)
  {
    hide DropBefore, Times;
    TimesSnoc(w.log, Admission(op.key, op.event, op.now), key, event);
    assert Times(w.log, key, event) + [] == Times(w.log, key, event);
  }

  lemma OtherKeyOk(limits: Limits, m: real, w: World, op: Op, w': World, key: string, event: string)
    requires Inv(limits, m, w) && op.Check? && Next(limits, m, w, op, w')
    requires (key, event) != (op.key, op.event)
             || !(event in limits && (key in w.counters || |w.counters| < MAX_TRACKED))
    ensures KeyOk(limits, m, w', key, event)
  {
    OtherDeque(limits, m, w, op, w', key, event);
    hide Deque, Times, CheckStep, TimesOk;
    assert KeyOk(limits, m, w, key, event);
    if event in limits {
      TimesLater(Deque(w.counters, key, event), Times(w.log, key, event), limits[event], m, w, w');
    }
  }

  lemma TimesLater(q: seq<real>, all: seq<real>, limit: Limit, m: real, w: World, w': World)
    requires TimesOk(q, all, limit, m, w) && w.clock <= w'.clock && w.lastCleanup == w'.lastCleanup
    ensures TimesOk(q, all, limit, m, w')
  {
  }

  lemma CheckKeepsInv(limits: Limits, m: real, w: World, op: Op, w': World)
    requires Inv(limits, m, w) && IsMaxWindow(limits, m) && op.Check? && Next(limits, m, w, op, w')
    ensures Inv(limits, m, w')
  {
    hide KeyOk, DropBefore, Times;
    forall key, event ensures KeyOk(limits, m, w', key, event) {
      if (key, event) == (op.key, op.event) && event in limits && (key in w.counters || |w.counters| < MAX_TRACKED) {
        CheckedKeyOk(limits, m, w, op, w');
      } else {
        OtherKeyOk(limits, m, w, op, w', key, event);
      }
    }
    if op.key in w.counters {
      assert w'.counters.Keys == w.counters.Keys;
    }
    KeysBound(w, w', op.key);
  }

  lemma KeysBound(w: World, w': World, key: string)
    requires |w.counters| <= MAX_TRACKED
    requires w'.counters.Keys == w.counters.Keys || (w'.counters.Keys == w.counters.Keys + {key} && |w.counters| < MAX_TRACKED)
    ensures |w'.counters| <= MAX_TRACKED
  {
    assert |w.counters| == |w.counters.Keys| && |w'.counters| == |w'.counters.Keys|;
  }

  /** A cleanup of at most MAX_TRACKED keys never gets to the eviction. */
  lemma CleanupForgetsNoKey(c: Table, now: real, m: real, c': Table)
    requires |c| <= MAX_TRACKED && CleanupStep(c, now, m, c')
    ensures c' == CleanTable(c, now, m) && |c'| <= MAX_TRACKED
  {
    var cleaned := CleanTable(c, now, m);
    assert cleaned.Keys <= c.Keys;
    SubsetSize(cleaned.Keys, c.Keys);
    assert |cleaned| == |cleaned.Keys| && |c| == |c.Keys|;
  }

  lemma CleanupKeepsInv(limits: Limits, m: real, w: World, op: Op, w': World)
    requires Inv(limits, m, w) && IsMaxWindow(limits, m) && op.Cleanup? && Next(limits, m, w, op, w')
    ensures Inv(limits, m, w')
  {
    CleanupForgetsNoKey(w.counters, op.now, m, w'.counters);
    forall key, event ensures KeyOk(limits, m, w', key, event) {
      assert KeyOk(limits, m, w, key, event);
      if event in limits {
        var q, all := Deque(w.counters, key, event), Times(w.log, key, event);
        CleanedDeque(w.counters, key, event, op.now, m);
        CleanedTail(q, all, limits[event].window, w, w', m);
      }
    }
  }

  lemma CleanedDeque(c: Table, key: string, event: string, now: real, m: real)
    ensures Deque(CleanTable(c, now, m), key, event) == KeepFresh(Deque(c, key, event), now, m)
  {
    if key in c && event in c[key] && KeepFresh(c[key][event], now, m) != [] {
      assert event in CleanEvents(c[key], now, m);
    }
  }

  lemma CleanedTail(q: seq<real>, all: seq<real>, window: real, w: World, w': World, m: real)
    requires Sorted(all) && IsRecentTail(q, all, window, w, m)
    requires w.clock <= w'.clock == w'.lastCleanup && w.lastCleanup <= w.clock && window <= m
    ensures IsRecentTail(KeepFresh(q, w'.clock, m), all, window, w', m)
  {
    KeepFreshIsTail(q, w'.clock, m);
    var r := KeepFresh(q, w'.clock, m);
    assert r == all[|all| - |r|..];
    forall i | 0 <= i < |all| - |r| ensures all[i] < w'.clock - window || all[i] <= w'.lastCleanup - m {
      if i >= |all| - |q| { assert all[i] == q[i - (|all| - |q|)]; }
    }
  }

  lemma {:induction false} RunKeepsInv(limits: Limits, m: real, ws: seq<World>, ops: seq<Op>, n: nat)
    requires IsRun(limits, m, ws, ops) && n < |ws|
    ensures Inv(limits, m, ws[n])
  {
    if n > 0 {
      RunKeepsInv(limits, m, ws, ops, n - 1);
      assert Next(limits, m, ws[n - 1], ops[n - 1], ws[n - 1 + 1]);
      if ops[n - 1].Check? {
        CheckKeepsInv(limits, m, ws[n - 1], ops[n - 1], ws[n]);
      } else {
        CleanupKeepsInv(limits, m, ws[n - 1], ops[n - 1], ws[n]);
      }
    }
  }

  // ── What every run guarantees ─────────────────────────────────────────────

  ghost function InWindow(q: seq<real>, x: real, y: real): set<nat> {
    set i: nat | i < |q| && x < q[i] <= y
  }

  ghost function Since(q: seq<real>, cutoff: real): set<nat> {
    set i: nat | i < |q| && cutoff <= q[i]
  }

  ghost function Interval(low: nat, high: nat): (s: set<nat>)
    requires low <= high
    ensures |s| == high - low
    ensures forall i: nat :: i in s <==> low <= i < high
    decreases high
  {
    if low == high then {} else Interval(low, high - 1) + {high - 1}
  }

  /** The first index whose time is after x. */
  ghost function FirstAfter(q: seq<real>, x: real): (i: nat)
    ensures i <= |q| && (i < |q| ==> q[i] > x) && forall j :: 0 <= j < i ==> q[j] <= x
  {
    if q == [] then 0
    else
      var i := FirstAfter(q[..|q| - 1], x);
      if i < |q| - 1 || q[i] > x then i else i + 1
  }

  lemma PastTheWindow(q: seq<real>, limit: Limit, from: nat, i: nat)
    requires Sorted(q) && Spread(q, limit) && from + limit.count <= i < |q|
    ensures q[from] + limit.window <= q[i]
  {
    var j := from + limit.count;
    assert q[from] + limit.window <= q[j];
  }

  lemma SpreadBounds(q: seq<real>, limit: Limit, x: real)
    requires Sorted(q) && Spread(q, limit)
    ensures |InWindow(q, x, x + limit.window)| <= limit.count
  {
    var from := FirstAfter(q, x);
    forall i: nat | i < |q| && x < q[i] <= x + limit.window ensures from <= i < from + limit.count {
      if i >= from + limit.count {
        PastTheWindow(q, limit, from, i);
      }
    }
    SubsetSize(InWindow(q, x, x + limit.window), Interval(from, from + limit.count));
  }

  /** The window bound: whatever the run, no (x, x + window] holds more admissions than allowed. */
  lemma WindowBound(limits: Limits, m: real, ws: seq<World>, ops: seq<Op>, n: nat, key: string, event: string, x: real)
    requires IsRun(limits, m, ws, ops) && n < |ws| && event in limits
    ensures |InWindow(Times(ws[n].log, key, event), x, x + limits[event].window)| <= limits[event].count
  {
    RunKeepsInv(limits, m, ws, ops, n);
    hide InWindow, Times;
    assert KeyOk(limits, m, ws[n], key, event);
    SpreadBounds(Times(ws[n].log, key, event), limits[event], x);
  }

  /**
   * Apart from the tracked-key cap, every check later than the last cleanup decides exactly as
   * a count over the whole admitted log would.
   */
  lemma DecisionIsNaive(limits: Limits, m: real, ws: seq<World>, ops: seq<Op>, n: nat)
    requires IsRun(limits, m, ws, ops) && n < |ops| && ops[n].Check?
    requires ws[n].lastCleanup < ops[n].now
    ensures var w, key, event, now := ws[n], ops[n].key, ops[n].event, ops[n].now;
            CheckStep(limits, w.counters, key, event, now).1
            <==> event !in limits
                 || ((key in w.counters || |w.counters| < 10000)
                     && |Since(Times(w.log, key, event), now - limits[event].window)| < limits[event].count)
  {
    var w, key, event, now := ws[n], ops[n].key, ops[n].event, ops[n].now;
    RunKeepsInv(limits, m, ws, ops, n);
    assert Next(limits, m, ws[n], ops[n], ws[n + 1]);
    if event in limits {
      assert KeyOk(limits, m, w, key, event);
      hide IsRun, Inv, Next, Times, DropBefore, Since, TimesOk;
      CountIsNaive(Deque(w.counters, key, event), Times(w.log, key, event), limits[event], m, w, now);
    }
  }

  /** The deque without what is too old has as many times as the full log since the cutoff. */
  lemma CountIsNaive(q: seq<real>, all: seq<real>, limit: Limit, m: real, w: World, now: real)
    requires TimesOk(q, all, limit, m, w) && w.clock <= now && w.lastCleanup < now && limit.window <= m
    ensures |DropBefore(q, now - limit.window)| == |Since(all, now - limit.window)|
  {
    var cutoff := now - limit.window;
    DropBeforeIsTail(q, cutoff);
    var r := DropBefore(q, cutoff);
    hide DropBefore, Spread;
    forall i: nat | i < |all| ensures i in Since(all, cutoff) <==> |all| - |r| <= i {
      if i >= |all| - |q| { assert all[i] == q[i - (|all| - |q|)]; }
      if i >= |all| - |r| { assert all[i] == r[i - (|all| - |r|)]; }
    }
    assert Since(all, cutoff) == Interval(|all| - |r|, |all|);
  }

  /** Everything in the deques is later than what the last cleanup forgot. */
  ghost predicate KeptAreRecent(w: World, m: real, key: string, event: string) {
    forall i :: 0 <= i < |Deque(w.counters, key, event)| ==> w.lastCleanup - m < Deque(w.counters, key, event)[i]
  }

  lemma CheckKeepsRecent(limits: Limits, m: real, w: World, op: Op, w': World, key: string, event: string)
    requires Next(limits, m, w, op, w') && op.Check? && m > 0.0 && w.lastCleanup <= w.clock
    requires KeptAreRecent(w, m, key, event)
    ensures KeptAreRecent(w', m, key, event)
  {
    hide DropBefore, Times;
    var q, q' := Deque(w.counters, key, event), Deque(w'.counters, key, event);
    if (key, event) == (op.key, op.event) && event in limits && (key in w.counters || |w.counters| < MAX_TRACKED) {
      var cutoff := op.now - limits[event].window;
      DropBeforeIsTail(q, cutoff);
      var r := DropBefore(q, cutoff);
      assert q' == r || q' == r + [op.now];
      assert forall i :: 0 <= i < |r| ==> r[i] == q[|q| - |r| + i];
    } else {
      assert q' == q;
    }
  }

  lemma CleanupKeepsRecent(limits: Limits, m: real, w: World, op: Op, w': World, key: string, event: string)
    requires Inv(limits, m, w) && Next(limits, m, w, op, w') && op.Cleanup?
    ensures KeptAreRecent(w', m, key, event)
  {
    CleanupForgetsNoKey(w.counters, op.now, m, w'.counters);
    CleanedDeque(w.counters, key, event, op.now, m);
    var q := Deque(w.counters, key, event);
    forall i | 0 <= i < |KeepFresh(q, op.now, m)| ensures op.now - m < KeepFresh(q, op.now, m)[i] {
      KeepFreshAreFresh(q, op.now, m, i);
    }
  }

  lemma {:induction false} RunKeepsRecent(
    limits: Limits, m: real, ws: seq<World>, ops: seq<Op>, n: nat, key: string, event: string)
    requires IsRun(limits, m, ws, ops) && n < |ws| && m > 0.0
    ensures KeptAreRecent(ws[n], m, key, event)
  {
    if n > 0 {
      RunKeepsInv(limits, m, ws, ops, n - 1);
      RunKeepsRecent(limits, m, ws, ops, n - 1, key, event);
      assert Next(limits, m, ws[n - 1], ops[n - 1], ws[n - 1 + 1]);
      if ops[n - 1].Check? {
        CheckKeepsRecent(limits, m, ws[n - 1], ops[n - 1], ws[n], key, event);
      } else {
        CleanupKeepsRecent(limits, m, ws[n - 1], ops[n - 1], ws[n], key, event);
      }
    }
  }

  /** The admitted times a check still counts: in its window, and not forgotten by the last cleanup. */
  ghost function Remembered(q: seq<real>, cutoff: real, forgotten: real): set<nat> {
    set i: nat | i < |q| && cutoff <= q[i] && forgotten < q[i]
  }

  lemma PrunedIsRemembered(q: seq<real>, all: seq<real>, window: real, w: World, m: real, now: real)
    requires Sorted(all) && IsRecentTail(q, all, window, w, m) && w.clock <= now
    requires forall i :: 0 <= i < |q| ==> w.lastCleanup - m < q[i]
    ensures |DropBefore(q, now - window)| == |Remembered(all, now - window, w.lastCleanup - m)|
  {
    var cutoff := now - window;
    DropBeforeIsTail(q, cutoff);
    var r := DropBefore(q, cutoff);
    hide DropBefore;
    var low, counted := |all| - |r|, Remembered(all, cutoff, w.lastCleanup - m);
    forall i: nat | i < |all| ensures i in counted <==> low <= i {
      if i >= |all| - |q| { assert all[i] == q[i - (|all| - |q|)]; }
    }
    assert counted == Interval(low, |all|);
  }

  /**
   * What every check decides, cleanup instants included: it counts the admitted times of its
   * window that are less than the longest window older than the last cleanup.
   */
  lemma DecisionIsExact(limits: Limits, m: real, ws: seq<World>, ops: seq<Op>, n: nat)
    requires IsRun(limits, m, ws, ops) && m > 0.0 && n < |ops| && ops[n].Check?
    ensures var w, key, event, now := ws[n], ops[n].key, ops[n].event, ops[n].now;
            CheckStep(limits, w.counters, key, event, now).1
            <==> event !in limits
                 || ((key in w.counters || |w.counters| < 10000)
                     && |Remembered(Times(w.log, key, event), now - limits[event].window, w.lastCleanup - m)|
                        < limits[event].count)
  {
    hide DropBefore, Times, Remembered;
    var w, key, event, now := ws[n], ops[n].key, ops[n].event, ops[n].now;
    RunKeepsInv(limits, m, ws, ops, n);
    RunKeepsRecent(limits, m, ws, ops, n, key, event);
    assert Next(limits, m, ws[n], ops[n], ws[n + 1]);
    if event in limits {
      assert KeyOk(limits, m, w, key, event);
      PrunedIsRemembered(Deque(w.counters, key, event), Times(w.log, key, event), limits[event].window, w, m, now);
    }
  }

  ghost predicate Naive(limits: Limits, w: World, op: Op)
    requires op.Check?
  {
    op.event !in limits
    || ((op.key in w.counters || |w.counters| < MAX_TRACKED)
        && |Since(Times(w.log, op.key, op.event), op.now - limits[op.event].window)| < limits[op.event].count)
  }

  ghost function After(q: seq<real>, cutoff: real): set<nat> {
    set i: nat | i < |q| && cutoff < q[i]
  }

  lemma RememberedIs(q: seq<real>, cutoff: real, forgotten: real)
    ensures forgotten < cutoff ==> Remembered(q, cutoff, forgotten) == Since(q, cutoff)
    ensures forgotten == cutoff ==> Remembered(q, cutoff, forgotten) == After(q, cutoff)
    ensures |After(q, cutoff)| <= |Since(q, cutoff)|
  {
    SubsetSize(After(q, cutoff), Since(q, cutoff));
  }

  /**
   * Exactly when a check decides otherwise than the full log would: at the very instant of the
   * last cleanup, for an event with the longest window, when the calls at the far end of the
   * window make the difference.
   */
  lemma DiffersIff(limits: Limits, m: real, ws: seq<World>, ops: seq<Op>, n: nat)
    requires IsRun(limits, m, ws, ops) && m > 0.0 && n < |ops| && ops[n].Check?
    ensures var w, key, event, now := ws[n], ops[n].key, ops[n].event, ops[n].now;
            CheckStep(limits, w.counters, key, event, now).1 != Naive(limits, w, ops[n])
            <==> && event in limits && (key in w.counters || |w.counters| < 10000)
                 && now == w.lastCleanup && limits[event].window == m
                 && |After(Times(w.log, key, event), now - m)| < limits[event].count
                    <= |Since(Times(w.log, key, event), now - m)|
  {
    var w, op := ws[n], ops[n];
    DecisionIsExact(limits, m, ws, ops, n);
    RunKeepsInv(limits, m, ws, ops, n);
    assert Next(limits, m, ws[n], ops[n], ws[n + 1]);
    hide CheckStep, Times, Remembered, Since, After;
    if op.event in limits {
      RememberedIs(Times(w.log, op.key, op.event), op.now - limits[op.event].window, w.lastCleanup - m);
    }
  }

  /** The server's own table: how many calls per how many seconds. */
  const LIMITS: Limits := map[
    "connect" := Limit(30, 60.0), "open-room" := Limit(5, 60.0), "join-room" := Limit(20, 60.0),
    "leave-room" := Limit(10, 10.0), "claim-slot" := Limit(5, 10.0), "release-slot" := Limit(5, 10.0),
    "set-name" := Limit(5, 10.0), "set-mode" := Limit(5, 10.0), "rom-sharing-toggle" := Limit(5, 10.0),
    "set-listed" := Limit(5, 10.0), "rom-ready" := Limit(10, 10.0), "input-type" := Limit(5, 10.0),
    "device-type" := Limit(5, 10.0), "snapshot" := Limit(2, 1.0), "data-message" := Limit(60, 1.0),
    "room-lookup" := Limit(30, 60.0), "room-lookup-miss" := Limit(5, 60.0), "board" := Limit(240, 60.0),
    "room-frame" := Limit(240, 60.0), "ice-servers" := Limit(60, 60.0), "webrtc-signal" := Limit(60, 1.0),
    "input" := Limit(120, 1.0), "rom-signal" := Limit(60, 1.0), "cache-state" := Limit(5, 60.0),
    "session-log" := Limit(16, 30.0), "client-event" := Limit(60, 60.0), "debug-sync" := Limit(5, 1.0),
    "debug-logs" := Limit(5, 60.0), "game-screenshot" := Limit(12, 5.0), "feedback" := Limit(5, 3600.0),
    "admin" := Limit(30, 60.0)
  ]

  lemma LongestLimit()
    ensures IsMaxWindow(LIMITS, 3600.0) && "feedback" in LIMITS && LIMITS["feedback"] == Limit(5, 3600.0)
  {
    assert LIMITS["feedback"].window == 3600.0;
  }

  function Copies(t: real, k: nat): seq<real> {
    seq(k, i => t)
  }

  /** After k feedback calls from one address at one instant. */
  function Asked(t: real, k: nat): World {
    World(if k == 0 then map[] else map["ip" := map["feedback" := Copies(t, k)]],
          seq(k, i => Admission("ip", "feedback", t)), t, t)
  }

  lemma AskOnce(limits: Limits, t: real, k: nat)
    requires "feedback" in limits && limits["feedback"] == Limit(5, 3600.0) && k < 5
    ensures Next(limits, 3600.0, Asked(t, k), Check("ip", "feedback", t), Asked(t, k + 1))
  {
    assert DropBefore(Copies(t, k), t - 3600.0) == Copies(t, k);
    assert Copies(t, k) + [t] == Copies(t, k + 1);
    var events: Events := if k == 0 then map[] else map["feedback" := Copies(t, k)];
    var after: Events := map["feedback" := Copies(t, k + 1)];
    assert events["feedback" := Copies(t, k + 1)] == after;
    assert Asked(t, k).counters["ip" := after] == Asked(t, k + 1).counters;
    assert Asked(t, k).log + [Admission("ip", "feedback", t)] == Asked(t, k + 1).log;
  }

  lemma {:induction false} AskedTimes(t: real, k: nat)
    ensures Times(Asked(t, k).log, "ip", "feedback") == Copies(t, k)
  {
    if k > 0 {
      AskedTimes(t, k - 1);
      assert Asked(t, k).log[..k - 1] == Asked(t, k - 1).log;
      assert Copies(t, k - 1) + [t] == Copies(t, k);
    }
  }

  lemma {:induction false} NothingKept(t: real, k: nat, now: real)
    requires now - t >= 3600.0
    ensures KeepFresh(Copies(t, k), now, 3600.0) == []
  {
    if k > 0 {
      assert Copies(t, k)[..k - 1] == Copies(t, k - 1);
      NothingKept(t, k - 1, now);
    }
  }

  /** Five feedback calls, and a cleanup. */
  function FiveThenCleanup(now: real, t: real): seq<Op> {
    seq(5, i => Check("ip", "feedback", t)) + [Cleanup(now)]
  }

  function FiveThenCleaned(now: real, t: real): seq<World> {
    seq(6, i requires 0 <= i < 6 => Asked(t, i)) + [World(map[], Asked(t, 5).log, now, now)]
  }

  /**
   * A run of the server's table in which it happens: five feedback calls, and an hour later a
   * cleanup and a sixth call at one instant. The sixth is admitted, though the five are in its window.
   */
  lemma CleanupInstantForgets(t: real)
    ensures var now := t + 3600.0;
            var ws, ops, again := FiveThenCleaned(now, t), FiveThenCleanup(now, t), Check("ip", "feedback", now);
            && IsRun(LIMITS, 3600.0, ws, ops)
            && CheckStep(LIMITS, ws[6].counters, "ip", "feedback", now).1 && !Naive(LIMITS, ws[6], again)
  {
    LongestLimit();
    AskedIsRun(t, t + 3600.0);
    AskedTimes(t, 5);
    assert Since(Copies(t, 5), t) == Interval(0, 5);
    hide LIMITS;
  }

  lemma CleanedAfterAnHour(t: real, now: real)
    requires now == t + 3600.0
    ensures CleanTable(Asked(t, 5).counters, now, 3600.0) == map[]
  {
    NothingKept(t, 5, now);
    assert CleanEvents(map["feedback" := Copies(t, 5)], now, 3600.0) == map[];
  }

  lemma AskedIsRun(t: real, now: real)
    requires now == t + 3600.0
    ensures IsRun(LIMITS, 3600.0, FiveThenCleaned(now, t), FiveThenCleanup(now, t))
  {
    LongestLimit();
    CleanedAfterAnHour(t, now);
    assert Asked(t, 0) == World(map[], [], t, t);
    var ws, ops := FiveThenCleaned(now, t), FiveThenCleanup(now, t);
    assert Next(LIMITS, 3600.0, Asked(t, 5), Cleanup(now), ws[6]);
    hide LIMITS, Next;
    forall i | 0 <= i < 6 ensures Next(LIMITS, 3600.0, ws[i], ops[i], ws[i + 1]) {
      if i < 5 { AskOnce(LIMITS, t, i); }
    }
  }

  /** Never more than MAX_TRACKED keys, so no cleanup of any run takes the eviction branch. */
  lemma EvictionUnreachable(limits: Limits, m: real, ws: seq<World>, ops: seq<Op>, n: nat)
    requires IsRun(limits, m, ws, ops) && n < |ws|
    ensures |ws[n].counters| <= 10000
    ensures n < |ops| && ops[n].Cleanup? ==> |CleanTable(ws[n].counters, ops[n].now, m)| <= 10000
                                             && ws[n + 1].counters == CleanTable(ws[n].counters, ops[n].now, m)
  {
    RunKeepsInv(limits, m, ws, ops, n);
    if n < |ops| && ops[n].Cleanup? {
      assert Next(limits, m, ws[n], ops[n], ws[n + 1]);
      CleanupForgetsNoKey(ws[n].counters, ops[n].now, m, ws[n + 1].counters);
    }
  }
}
