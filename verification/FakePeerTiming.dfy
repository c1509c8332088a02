/**
 * When the synthetic peer sends and when its packets arrive: one frame for each new frame of the
 * engine, or one a tick once the engine has stood still for four; and each packet its delay later.
 */
module FakePeerTiming {
  import opened Basics
  import opened FakePeer
  import opened FakePeerRun

  // ── Pace ──────────────────────────────────────────────────────────────────

  /** The engine's frame at the last tick, or -1. */
  function LastEngine(ops: seq<Op>): int {
    if ops == [] then -1
    else if ops[|ops| - 1].Tick? then ops[|ops| - 1].engine
    else LastEngine(ops[..|ops| - 1])
  }

  /** How many of the last ticks, without a break, saw the same frame of the engine. */
  function Streak(ops: seq<Op>): nat {
    if ops == [] then 0
    else
      var front, last := ops[..|ops| - 1], ops[|ops| - 1];
      if !last.Tick? then Streak(front)
      else if last.engine == LastEngine(front) then Streak(front) + 1
      else 1
  }

  lemma {:induction false} StallIsStreak(ops: seq<Op>)
    ensures Run(ops).0.lastForStall == LastEngine(ops)
    ensures if LastEngine(ops) == -1 then Streak(ops) == 0 else Run(ops).0.stallTicks + 1 == Streak(ops)
  {
    if ops != [] {
      var front, last := ops[..|ops| - 1], ops[|ops| - 1];
      StallIsStreak(front);
      if last.Tick? { TickSees(Run(front).0, last.now, last.engine, last.fates); }
      hide TickStep, LogDo;
    }
  }

  /**
   * Exactly how far a tick takes the peer, after any run: to the engine's frame if it was behind or
   * the engine started over; otherwise one frame on, at most to six past the engine, if this is at
   * least the fourth tick in a row on that frame; otherwise nowhere.
   */
  lemma TickPace(ops: seq<Op>, now: real, engine: nat, fates: Fates)
    ensures var last, last' := Run(ops).0.lastSeen, Run(ops + [Tick(now, engine, fates)]).0.lastSeen;
            last' == if last < engine || last > engine + 30 then engine
                     else if Streak(ops + [Tick(now, engine, fates)]) >= 4 && last < engine + 6 then last + 1
                     else last
  {
    var op := Tick(now, engine, fates);
    assert (ops + [op])[..|ops|] == ops;
    StallIsStreak(ops);
    StallIsStreak(ops + [op]);
    TickSees(Run(ops).0, now, engine, fates);
    hide TickStep, LogDo, Streak, LastEngine;
  }

  lemma {:induction false} LogKeepsEngine(l: Log, from: int, target: int, fates: Fates)
    ensures LogScheduleTo(l, from, target, fates).maxEngine == l.maxEngine
    decreases target - from
  {
    if target >= from { LogKeepsEngine(l, from, target - 1, fates); }
  }

  lemma LogTickSees(p: Peer, l: Log, now: real, engine: nat, fates: Fates)
    ensures LogTick(p, l, now, engine, fates).maxEngine
            == if p.lastSeen < 0 || p.lastSeen - engine > 30 then engine else Max(l.maxEngine, engine)
  {
    var q := Started(p, engine);
    LogKeepsEngine(Seen(p, l, engine), q.lastSeen + 1, Target(q, engine), fates);
    hide LogScheduleTo, Scheduled, Frames, Due;
  }

  /** While the engine is never seen on one frame four ticks in a row, the peer is exactly where the engine has been. */
  lemma {:induction false} PacesTheEngine(ops: seq<Op>)
    requires forall i :: 0 <= i <= |ops| ==> Streak(ops[..i]) <= 3
    ensures Run(ops).0.lastSeen >= 0 ==> Run(ops).0.lastSeen == Run(ops).1.maxEngine
  {
    if ops != [] {
      var front, last := ops[..|ops| - 1], ops[|ops| - 1];
      assert forall i :: 0 <= i <= |front| ==> front[..i] == ops[..i];
      PacesTheEngine(front);
      if last.Tick? {
        assert ops[..|ops|] == ops == front + [Tick(last.now, last.engine, last.fates)];
        TickPace(front, last.now, last.engine, last.fates);
        LogTickSees(Run(front).0, Run(front).1, last.now, last.engine, last.fates);
      }
      hide TickStep, LogTick, Streak;
    }
  }

  // ── Arrival ───────────────────────────────────────────────────────────────

  /** The instant a packet sent now is to arrive, had it its own time. */
  function Arrival(now: real, f: Fate): real {
    if f.delay > 0.0 then now + f.delay else now
  }

  function Arrivals(from: int, target: int, now: real, fates: Fates): map<int, real> {
    map frame | from <= frame <= target :: Arrival(now, fates(frame))
  }

  /** The arrival times once a tick has sent its frames: those before are forgotten with a reset. */
  function DuesAfter(p: Peer, dues: map<int, real>, op: Op): map<int, real>
    requires op.Tick?
  {
    (if Resets(p, op.engine) then map[] else dues)
    + Arrivals(Started(p, op.engine).lastSeen + 1, Do(p, op).lastSeen, op.now, op.fates)
  }

  /** When the packet of each frame sent since the last reset is to arrive. */
  function Dues(ops: seq<Op>): map<int, real> {
    if ops == [] then map[]
    else
      var front, op := ops[..|ops| - 1], ops[|ops| - 1];
      match op
      case Tick(now, engine, fates) => DuesAfter(Run(front).0, Dues(front), op)
      case MatchInactive => Dues(front)
      case Restart => map[]
  }

  /** Each packet has an arrival time of some frame sent: its own, unless two were swapped. */
  ghost predicate OnTime(queue: seq<Packet>, dues: map<int, real>, straight: bool) {
    forall i :: 0 <= i < |queue| ==> PacketOnTime(queue[i], dues, straight)
  }

  ghost predicate PacketOnTime(x: Packet, dues: map<int, real>, straight: bool) {
    exists g :: g in dues && x.due == dues[g] && (straight ==> g == x.frame)
  }

  ghost predicate NoSwaps(ops: seq<Op>) {
    forall i :: 0 <= i < |ops| && ops[i].Tick? ==> SwapsNone(ops[i].fates)
  }

  ghost predicate SwapsNone(fates: Fates) {
    forall frame :: !fates(frame).swap
  }

  ghost predicate UpTo(dues: map<int, real>, last: int) {
    forall g :: g in dues ==> g <= last
  }

  lemma OnTimeGrows(x: Packet, dues: map<int, real>, frame: int, due: real, straight: bool)
    requires frame !in dues && PacketOnTime(x, dues, straight)
    ensures PacketOnTime(x, dues[frame := due], straight)
  {
    var g :| g in dues && x.due == dues[g] && (straight ==> g == x.frame);
    assert dues[frame := due][g] == x.due;
  }

  lemma NewOnTime(x: Packet, dues: map<int, real>, straight: bool)
    ensures PacketOnTime(x, dues[x.frame := x.due], straight)
  {
    assert x.frame in dues[x.frame := x.due];
  }

  /** A swap exchanges the two newest packets' times and leaves everything else as without it. */
  lemma SwapExchanges(queue: seq<Packet>, frame: int, now: real, f: Fate)
    requires queue != []
    ensures var plain := Enqueue(queue, frame, now, f.(swap := false));
            var n := |queue|;
            && plain == queue + [Packet(frame, f.input, Arrival(now, f))]
            && Enqueue(queue, frame, now, f.(swap := true))
               == plain[n - 1 := plain[n - 1].(due := plain[n].due)][n := plain[n].(due := plain[n - 1].due)]
  {
  }

  lemma EnqueueOnTime(queue: seq<Packet>, dues: map<int, real>, frame: int, now: real, f: Fate, straight: bool)
    requires OnTime(queue, dues, straight) && frame !in dues && (straight ==> !f.swap)
    ensures OnTime(Enqueue(queue, frame, now, f), dues[frame := Arrival(now, f)], straight)
  {
    var due := Arrival(now, f);
    var queue', dues' := Enqueue(queue, frame, now, f), dues[frame := due];
    forall i | 0 <= i < |queue'| ensures PacketOnTime(queue'[i], dues', straight) {
      NewOnTime(Packet(frame, f.input, due), dues, straight);
      if i < |queue| { OnTimeGrows(queue[i], dues, frame, due, straight); }
      if f.swap && queue != [] { OnTimeGrows(queue[|queue| - 1], dues, frame, due, straight); }
    }
  }

  lemma {:induction false} ScheduleToOnTime(p: Peer, dues: map<int, real>, from: int, target: int, now: real, fates: Fates, straight: bool)
    requires OnTime(p.queue, dues, straight) && UpTo(dues, from - 1) && (straight ==> SwapsNone(fates))
    ensures OnTime(ScheduleTo(p, from, target, now, fates).queue, dues + Arrivals(from, target, now, fates), straight)
    decreases target - from
  {
    if target < from {
      assert dues + Arrivals(from, target, now, fates) == dues;
    } else {
      ScheduleToOnTime(p, dues, from, target - 1, now, fates, straight);
      var dues' := dues + Arrivals(from, target - 1, now, fates);
      assert dues + Arrivals(from, target, now, fates) == dues'[target := Arrival(now, fates(target))];
      assert target !in dues';
      hide OnTime;
      EnqueueOnTime(ScheduleTo(p, from, target - 1, now, fates).queue, dues', target, now, fates(target), straight);
      LostOnTime(ScheduleTo(p, from, target - 1, now, fates).queue, dues', target, Arrival(now, fates(target)), straight);
    }
  }

  lemma LostOnTime(queue: seq<Packet>, dues: map<int, real>, frame: int, due: real, straight: bool)
    requires OnTime(queue, dues, straight) && frame !in dues
    ensures OnTime(queue, dues[frame := due], straight)
  {
    hide PacketOnTime;
    forall i | 0 <= i < |queue| ensures PacketOnTime(queue[i], dues[frame := due], straight) {
      OnTimeGrows(queue[i], dues, frame, due, straight);
    }
  }

  lemma StartedOnTime(p: Peer, engine: nat, dues: map<int, real>, straight: bool)
    requires OnTime(p.queue, dues, straight) && UpTo(dues, p.lastSeen)
    ensures var dues' := if Resets(p, engine) then map[] else dues;
            OnTime(Started(p, engine).queue, dues', straight) && UpTo(dues', Started(p, engine).lastSeen)
  {
    hide PacketOnTime;
  }

  lemma TickOnTime(p: Peer, op: Op, dues: map<int, real>, straight: bool)
    requires op.Tick? && OnTime(p.queue, dues, straight) && UpTo(dues, p.lastSeen) && (straight ==> SwapsNone(op.fates))
    ensures OnTime(Scheduled(p, op.now, op.engine, op.fates).queue, DuesAfter(p, dues, op), straight)
    ensures UpTo(DuesAfter(p, dues, op), Do(p, op).lastSeen)
  {
    var q := Started(p, op.engine);
    StartedOnTime(p, op.engine, dues, straight);
    TickSees(p, op.now, op.engine, op.fates);
    hide OnTime, UpTo, ScheduleTo, Target, Rebase, Stall, Resets, Arrivals, TickStep, SwapsNone;
    var base := if Resets(p, op.engine) then map[] else dues;
    ScheduledAre(p, op, base, straight);
    ToTheLast(base, q.lastSeen, Target(q, op.engine), op.now, op.fates);
  }

  lemma ScheduledAre(p: Peer, op: Op, base: map<int, real>, straight: bool)
    requires op.Tick? && OnTime(Started(p, op.engine).queue, base, straight) && UpTo(base, Started(p, op.engine).lastSeen)
    requires straight ==> SwapsNone(op.fates)
    ensures var q := Started(p, op.engine);
            OnTime(Scheduled(p, op.now, op.engine, op.fates).queue,
                   base + Arrivals(q.lastSeen + 1, Target(q, op.engine), op.now, op.fates), straight)
  {
    hide OnTime, UpTo, ScheduleTo, Target, Rebase, Stall, Arrivals, SwapsNone;
    var q := Started(p, op.engine);
    ScheduleToOnTime(q, base, q.lastSeen + 1, Target(q, op.engine), op.now, op.fates, straight);
  }

  lemma ToTheLast(dues: map<int, real>, last: int, target: int, now: real, fates: Fates)
    requires UpTo(dues, last)
    ensures Arrivals(last + 1, target, now, fates) == Arrivals(last + 1, Max(last, target), now, fates)
    ensures UpTo(dues + Arrivals(last + 1, Max(last, target), now, fates), Max(last, target))
  {
  }

  lemma DrainedOnTime(queue: seq<Packet>, now: real, dues: map<int, real>, straight: bool)
    requires OnTime(queue, dues, straight)
    ensures OnTime(Due(queue, now, false), dues, straight)
  {
    DueKeeps(queue, now, false, Log(0, [], multiset{}, multiset{}, multiset{}, 0));
    var rest := Due(queue, now, false);
    hide Due, PacketOnTime;
    forall i | 0 <= i < |rest| ensures PacketOnTime(rest[i], dues, straight) {
      assert rest[i] in rest;
    }
  }

  lemma DoOnTime(p: Peer, op: Op, dues: map<int, real>, straight: bool)
    requires op.Tick? && OnTime(p.queue, dues, straight) && UpTo(dues, p.lastSeen) && (straight ==> SwapsNone(op.fates))
    ensures OnTime(Do(p, op).queue, DuesAfter(p, dues, op), straight)
    ensures UpTo(DuesAfter(p, dues, op), Do(p, op).lastSeen)
  {
    TickOnTime(p, op, dues, straight);
    hide OnTime, UpTo, DuesAfter, Scheduled, Due, Deliveries, Sorted, SwapsNone;
    DrainedOnTime(Scheduled(p, op.now, op.engine, op.fates).queue, op.now, DuesAfter(p, dues, op), straight);
  }

  lemma {:induction false} RunOnTime(ops: seq<Op>, straight: bool)
    requires straight ==> NoSwaps(ops)
    ensures OnTime(Run(ops).0.queue, Dues(ops), straight) && UpTo(Dues(ops), Run(ops).0.lastSeen)
  {
    if ops != [] {
      var front, op := ops[..|ops| - 1], ops[|ops| - 1];
      RunOnTime(front, straight);
      hide TickStep, DuesAfter, LogDo, SwapsNone, PacketOnTime;
      if op.Tick? { DoOnTime(Run(front).0, op, Dues(front), straight); }
    }
  }

  /**
   * Over every run in which no two packets swap their times, a frame's packet that is not lost is
   * delivered by the first tick at or after the instant it was sent plus its delay, and not by an
   * earlier one. In every run each packet has the arrival time of some frame that was sent.
   */
  lemma ArrivesOnTime(ops: seq<Op>, now: real, engine: nat, fates: Fates)
    ensures var all, op := ops + [Tick(now, engine, fates)], Tick(now, engine, fates);
            var delivered := TickStep(Run(ops).0, now, engine, fates).1;
            && (forall x :: x in Run(all).0.queue ==> PacketOnTime(x, Dues(all), false) && x.due > now)
            && (NoSwaps(all) ==>
                  && (forall x :: x in Run(all).0.queue ==> x.frame in Dues(all) && Dues(all)[x.frame] > now)
                  && (forall i :: 0 <= i < |delivered| ==>
                        var frame := delivered[i].packet.frame; frame in Dues(all) && Dues(all)[frame] <= now))
  {
    var op := Tick(now, engine, fates);
    var all := ops + [op];
    assert all[..|ops|] == ops;
    DeliversWhatIsDue(Run(ops).0, now, engine, fates);
    RunOnTime(all, false);
    hide Scheduled, TickStep, Dues, LogDo, NoSwaps;
    if NoSwaps(all) { StraightOnTime(ops, op); }
  }

  lemma StraightOnTime(ops: seq<Op>, op: Op)
    requires op.Tick? && NoSwaps(ops + [op])
    ensures OnTime(Scheduled(Run(ops).0, op.now, op.engine, op.fates).queue, Dues(ops + [op]), true)
  {
    var all := ops + [op];
    assert all[..|ops|] == ops;
    assert forall i :: 0 <= i < |ops| ==> ops[i] == all[i];
    assert SwapsNone(op.fates) by { assert all[|ops|] == op; }
    hide Scheduled, TickStep, LogDo, OnTime, SwapsNone;
    RunOnTime(ops, true);
    TickOnTime(Run(ops).0, op, Dues(ops), true);
  }
}
