/**
 * Runs of the synthetic peer against a log of everything it sent since the engine's frame counter
 * was last seen to start over.
 */
module FakePeerRun {
  import opened Basics
  import opened FakePeer

  /** One tick, the demo declaring the match over, or the peer being stopped and started. */
  datatype Op = Tick(now: real, engine: nat, fates: Fates) | MatchInactive | Restart

  function Do(p: Peer, op: Op): Peer {
    match op
    case Tick(now, engine, fates) => TickStep(p, now, engine, fates).0
    case MatchInactive => p.(queue := [])
    case Restart => p.(lastSeen := -1, queue := [], history := [])
  }

  /** Since the last reset: every input sent, what became of its packet, and the engine's highest frame. */
  datatype Log = Log(
    first: int,
    scheduled: seq<Sent>,
    lost: multiset<int>,
    dropped: multiset<int>,
    delivered: multiset<int>,
    maxEngine: int
  )

  function Frames(queue: seq<Packet>): multiset<int> {
    if queue == [] then multiset{} else Frames(queue[..|queue| - 1]) + multiset{queue[|queue| - 1].frame}
  }

  function SentFrames(s: seq<Sent>): multiset<int> {
    if s == [] then multiset{} else SentFrames(s[..|s| - 1]) + multiset{s[|s| - 1].frame}
  }

  function LogSchedule(l: Log, frame: int, f: Fate): Log {
    l.(scheduled := l.scheduled + [Sent(frame, f.input)],
       lost := if f.lost then l.lost + multiset{frame} else l.lost)
  }

  function LogScheduleTo(l: Log, from: int, target: int, fates: Fates): Log
    decreases target - from
  {
    if target < from then l else LogSchedule(LogScheduleTo(l, from, target - 1, fates), target, fates(target))
  }

  function Seen(p: Peer, l: Log, engine: int): Log {
    if Resets(p, engine) then Log(Max(0, engine), [], multiset{}, multiset{}, multiset{}, engine)
    else l.(maxEngine := Max(l.maxEngine, engine))
  }

  function Started(p: Peer, engine: int): Peer {
    Stall(Rebase(p, engine), engine)
  }

  function LogScheduled(p: Peer, l: Log, engine: int, fates: Fates): Log {
    var q := Started(p, engine);
    LogScheduleTo(Seen(p, l, engine), q.lastSeen + 1, Target(q, engine), fates)
  }

  function LogTick(p: Peer, l: Log, now: real, engine: int, fates: Fates): Log {
    var l' := LogScheduled(p, l, engine, fates);
    l'.(delivered := l'.delivered + Frames(Due(Scheduled(p, now, engine, fates).queue, now, true)))
  }

  function LogDo(p: Peer, l: Log, op: Op): Log {
    match op
    case Tick(now, engine, fates) => LogTick(p, l, now, engine, fates)
    case MatchInactive => l.(dropped := l.dropped + Frames(p.queue))
    case Restart => Log(0, [], multiset{}, multiset{}, multiset{}, 0)
  }

  ghost predicate Consecutive(s: seq<Sent>, first: int) {
    forall i :: 0 <= i < |s| ==> s[i].frame == first + i
  }

  ghost predicate PacketOf(packet: Packet, l: Log) {
    && l.first <= packet.frame < l.first + |l.scheduled|
    && l.scheduled[packet.frame - l.first].input == packet.input
  }

  ghost predicate Packets(queue: seq<Packet>, l: Log) {
    forall i :: 0 <= i < |queue| ==> PacketOf(queue[i], l)
  }

  /** Every packet is accounted for: lost, dropped, queued or delivered, and only once. */
  ghost predicate Accounted(queue: seq<Packet>, l: Log) {
    SentFrames(l.scheduled) == l.lost + l.dropped + Frames(queue) + l.delivered
  }

  /** The peer has sent frames `first` to `last`, in order, each once. */
  ghost predicate Upto(p: Peer, l: Log, last: int) {
    && 0 <= l.first && |l.scheduled| == last - l.first + 1 && Consecutive(l.scheduled, l.first)
    && p.history == Newest(l.scheduled, HISTORY)
    && Packets(p.queue, l) && Accounted(p.queue, l)
    && last <= l.maxEngine + STALL_LOOKAHEAD_FRAMES
  }

  ghost predicate Inv(p: Peer, l: Log) {
    if p.lastSeen < 0 then p.queue == [] else Upto(p, l, p.lastSeen)
  }

  // ── One frame ─────────────────────────────────────────────────────────────

  lemma FramesSnoc(queue: seq<Packet>, x: Packet)
    ensures Frames(queue + [x]) == Frames(queue) + multiset{x.frame}
  {
    assert (queue + [x])[..|queue|] == queue;
  }

  lemma SentFramesSnoc(s: seq<Sent>, x: Sent)
    ensures SentFrames(s + [x]) == SentFrames(s) + multiset{x.frame}
  {
    assert (s + [x])[..|s|] == s;
  }

  lemma EnqueueFrames(queue: seq<Packet>, frame: int, now: real, f: Fate)
    ensures Frames(Enqueue(queue, frame, now, f)) == Frames(queue) + multiset{frame}
  {
    var queue' := Enqueue(queue, frame, now, f);
    FramesSnoc(queue'[..|queue|], queue'[|queue|]);
    assert queue' == queue'[..|queue|] + [queue'[|queue|]];
    if f.swap && queue != [] {
      var last := |queue| - 1;
      assert queue'[..|queue|][..last] == queue[..last];
    } else {
      assert queue'[..|queue|] == queue;
    }
  }

  lemma EnqueuePackets(queue: seq<Packet>, l: Log, frame: int, now: real, f: Fate)
    requires Packets(queue, l) && frame == l.first + |l.scheduled|
    ensures Packets(Enqueue(queue, frame, now, f), LogSchedule(l, frame, f))
    ensures Packets(queue, LogSchedule(l, frame, f))
  {
    var l', queue' := LogSchedule(l, frame, f), Enqueue(queue, frame, now, f);
    forall i | 0 <= i < |queue| ensures PacketOf(queue[i], l') {
      assert PacketOf(queue[i], l);
    }
    forall i | 0 <= i < |queue'| ensures PacketOf(queue'[i], l') {
      if i < |queue| { assert queue'[i].frame == queue[i].frame && queue'[i].input == queue[i].input; }
    }
  }

  lemma NewestOfSnoc<T>(s: seq<T>, x: T, n: nat)
    requires n > 0
    ensures Newest(Newest(s, n) + [x], n) == Newest(s + [x], n)
  {
  }

  lemma ScheduleUpto(p: Peer, l: Log, last: int, now: real, f: Fate)
    requires Upto(p, l, last) && last + 1 <= l.maxEngine + STALL_LOOKAHEAD_FRAMES
    ensures Upto(Schedule(p, last + 1, now, f), LogSchedule(l, last + 1, f), last + 1)
  {
    hide Enqueue, Newest, Frames, SentFrames, Packets;
    EnqueueFrames(p.queue, last + 1, now, f);
    EnqueuePackets(p.queue, l, last + 1, now, f);
    NewestOfSnoc(l.scheduled, Sent(last + 1, f.input), HISTORY);
    SentFramesSnoc(l.scheduled, Sent(last + 1, f.input));
  }

  lemma {:induction false} ScheduleToUpto(p: Peer, l: Log, last: int, target: int, now: real, fates: Fates)
    requires Upto(p, l, last) && target <= l.maxEngine + STALL_LOOKAHEAD_FRAMES
    ensures Upto(ScheduleTo(p, last + 1, target, now, fates), LogScheduleTo(l, last + 1, target, fates), Max(last, target))
    ensures LogScheduleTo(l, last + 1, target, fates).first == l.first
    ensures LogScheduleTo(l, last + 1, target, fates).maxEngine == l.maxEngine
    decreases target - last
  {
    hide Upto, Schedule;
    if target > last {
      ScheduleToUpto(p, l, last, target - 1, now, fates);
      ScheduleUpto(ScheduleTo(p, last + 1, target - 1, now, fates),
                   LogScheduleTo(l, last + 1, target - 1, fates), target - 1, now, fates(target));
    }
  }

  // ── One tick ──────────────────────────────────────────────────────────────

  lemma DueSnoc(queue: seq<Packet>, x: Packet, now: real)
    ensures Frames(Due(queue + [x], now, true))
            == Frames(Due(queue, now, true)) + (if x.due <= now then multiset{x.frame} else multiset{})
    ensures Frames(Due(queue + [x], now, false))
            == Frames(Due(queue, now, false)) + (if x.due <= now then multiset{} else multiset{x.frame})
  {
    hide Frames;
    assert (queue + [x])[..|queue|] == queue;
    FramesSnoc(Due(queue, now, x.due <= now), x);
    assert Due(queue, now, true) + [] == Due(queue, now, true);
    assert Due(queue, now, false) + [] == Due(queue, now, false);
  }

  lemma Regroup(t: multiset<int>, f: multiset<int>, x: multiset<int>)
    ensures (t + f) + x == (t + x) + f
    ensures (t + f) + x == t + (f + x)
  {
  }

  lemma {:induction false} DueSplits(queue: seq<Packet>, now: real)
    ensures Frames(queue) == Frames(Due(queue, now, true)) + Frames(Due(queue, now, false))
  {
    if queue != [] {
      var front, x := queue[..|queue| - 1], queue[|queue| - 1];
      assert queue == front + [x];
      hide Frames, Due;
      DueSplits(front, now);
      DueSnoc(front, x, now);
      FramesSnoc(front, x);
      var t, f := Frames(Due(front, now, true)), Frames(Due(front, now, false));
      Regroup(t, f, multiset{x.frame});
      if x.due <= now {
        assert Frames(Due(front + [x], now, false)) == f;
      } else {
        assert Frames(Due(front + [x], now, true)) == t;
      }
    }
  }

  lemma {:induction false} DueKeeps(queue: seq<Packet>, now: real, due: bool, l: Log)
    ensures forall x :: x in Due(queue, now, due) <==> x in queue && (x.due <= now) == due
    ensures Packets(queue, l) ==> Packets(Due(queue, now, due), l)
  {
    if queue != [] {
      var front := queue[..|queue| - 1];
      DueKeeps(front, now, due, l);
      assert queue == front + [queue[|queue| - 1]];
    }
  }

  lemma StartedUpto(p: Peer, l: Log, engine: int)
    requires Inv(p, l) && 0 <= engine
    ensures Upto(Started(p, engine), Seen(p, l, engine), Started(p, engine).lastSeen)
    ensures engine <= Seen(p, l, engine).maxEngine
  {
    if Resets(p, engine) {
      StartsAfresh(Started(p, engine), engine);
    } else {
      hide Frames, SentFrames, Consecutive, Packets, PacketOf, Newest;
      var q, l' := Started(p, engine), Seen(p, l, engine);
      assert q.queue == p.queue && q.history == p.history && q.lastSeen == p.lastSeen;
      PacketsLog(p.queue, l, l');
    }
  }

  lemma PacketsLog(queue: seq<Packet>, l: Log, l': Log)
    requires Packets(queue, l) && l'.first == l.first && l'.scheduled == l.scheduled
    ensures Packets(queue, l')
  {
    forall i | 0 <= i < |queue| ensures PacketOf(queue[i], l') {
      assert PacketOf(queue[i], l);
    }
  }

  lemma StartsAfresh(q: Peer, engine: int)
    requires 0 <= engine && q.lastSeen == engine - 1 && q.queue == [] && q.history == []
    ensures Upto(q, Log(engine, [], multiset{}, multiset{}, multiset{}, engine), q.lastSeen)
  {
  }

  lemma TargetBounds(q: Peer, engine: int)
    ensures engine <= Target(q, engine) <= engine + STALL_LOOKAHEAD_FRAMES
  {
  }

  /** A tick before its packets are delivered. */
  lemma ScheduledUpto(p: Peer, l: Log, now: real, engine: int, fates: Fates)
    requires Inv(p, l) && 0 <= engine
    ensures var s := Scheduled(p, now, engine, fates);
            Upto(s, LogScheduled(p, l, engine, fates), s.lastSeen) && s.lastSeen >= 0
  {
    hide Upto, ScheduleTo, LogScheduleTo, Rebase, Stall, Target, Seen, Inv;
    var q, l0 := Started(p, engine), Seen(p, l, engine);
    StartedUpto(p, l, engine);
    TargetBounds(q, engine);
    ScheduleToUpto(q, l0, q.lastSeen, Target(q, engine), now, fates);
    UptoLastSeen(ScheduleTo(q, q.lastSeen + 1, Target(q, engine), now, fates),
                 LogScheduled(p, l, engine, fates), Max(q.lastSeen, Target(q, engine)));
  }

  lemma UptoLastSeen(p: Peer, l: Log, last: int)
    requires Upto(p, l, last)
    ensures Upto(p.(lastSeen := last), l, last)
  {
  }

  lemma DrainUpto(s: Peer, l: Log, now: real)
    requires Upto(s, l, s.lastSeen)
    ensures Upto(s.(queue := Due(s.queue, now, false)),
                 l.(delivered := l.delivered + Frames(Due(s.queue, now, true))), s.lastSeen)
  {
    DueSplits(s.queue, now);
    DueKeeps(s.queue, now, false, l);
    DueKeeps(s.queue, now, false, l.(delivered := l.delivered + Frames(Due(s.queue, now, true))));
    hide Due, Frames, SentFrames, Newest;
  }

  lemma TickKeepsInv(p: Peer, l: Log, now: real, engine: nat, fates: Fates)
    requires Inv(p, l)
    ensures Inv(TickStep(p, now, engine, fates).0, LogTick(p, l, now, engine, fates))
  {
    ScheduledUpto(p, l, now, engine, fates);
    hide Upto, Scheduled, LogScheduled, Due, Frames, Deliveries, Sorted;
    DrainUpto(Scheduled(p, now, engine, fates), LogScheduled(p, l, engine, fates), now);
  }

  lemma DoKeepsInv(p: Peer, l: Log, op: Op)
    requires Inv(p, l)
    ensures Inv(Do(p, op), LogDo(p, l, op))
  {
    hide TickStep, LogTick;
    if op.Tick? { TickKeepsInv(p, l, op.now, op.engine, op.fates); }
  }

  function Run(ops: seq<Op>): (Peer, Log) {
    if ops == [] then (Peer(-1, [], [], 0, -1), Log(0, [], multiset{}, multiset{}, multiset{}, 0))
    else
      var (p, l) := Run(ops[..|ops| - 1]);
      (Do(p, ops[|ops| - 1]), LogDo(p, l, ops[|ops| - 1]))
  }

  /** Sent in order, once each, never more than six frames past the engine's highest. */
  lemma {:induction false} RunKeepsInv(ops: seq<Op>)
    ensures Inv(Run(ops).0, Run(ops).1)
  {
    hide Do, LogDo;
    if ops != [] {
      RunKeepsInv(ops[..|ops| - 1]);
      var (p, l) := Run(ops[..|ops| - 1]);
      DoKeepsInv(p, l, ops[|ops| - 1]);
    }
  }

  lemma {:induction false} SentFramesOf(s: seq<Sent>, first: int, frame: int)
    requires Consecutive(s, first)
    ensures SentFrames(s)[frame] == if first <= frame < first + |s| then 1 else 0
  {
    if s != [] { SentFramesOf(s[..|s| - 1], first, frame); }
  }

  /** Every frame sent since the reset is in exactly one place, and no other frame is anywhere. */
  lemma OnePlace(ops: seq<Op>, frame: int)
    requires Run(ops).0.lastSeen >= 0
    ensures var (p, l) := Run(ops);
            l.lost[frame] + l.dropped[frame] + Frames(p.queue)[frame] + l.delivered[frame]
            == if l.first <= frame <= p.lastSeen then 1 else 0
  {
    RunKeepsInv(ops);
    SentFramesOf(Run(ops).1.scheduled, Run(ops).1.first, frame);
  }

  // ── What a packet carries ─────────────────────────────────────────────────

  lemma {:induction false} BeforeOf(s: seq<Sent>, first: int, frame: int)
    requires Consecutive(s, first)
    ensures Before(s, frame) == s[..Max(0, Min(frame - first, |s|))]
  {
    if s != [] {
      var front := s[..|s| - 1];
      BeforeOf(front, first, frame);
      assert s == front + [s[|s| - 1]];
    }
  }

  /** h is what s holds from some place on. */
  ghost predicate EndsWith(s: seq<Sent>, h: seq<Sent>, from: nat) {
    |s| == from + |h| && forall i :: 0 <= i < |h| ==> h[i] == s[from + i]
  }

  /** The newest few of a prefix of a suffix. */
  lemma NewestOfPart(s: seq<Sent>, h: seq<Sent>, from: nat, k: nat, n: nat)
    requires EndsWith(s, h, from) && from + k <= |s|
    ensures Newest(h[..k], n) == s[Max(from + k - n, from)..from + k]
  {
    var low := Max(from + k - n, from);
    var part, whole := Newest(h[..k], n), s[low..from + k];
    assert |part| == |whole|;
    forall i | 0 <= i < |part| ensures part[i] == whole[i] {
      assert part[i] == h[low - from + i] == s[low + i];
    }
  }

  lemma BeforeIs(h: seq<Sent>, oldest: int, frame: int)
    requires Consecutive(h, oldest) && frame <= oldest + |h|
    ensures Before(h, frame) == if frame <= oldest then [] else h[..frame - oldest]
  {
    BeforeOf(h, oldest, frame);
    hide Before, Consecutive;
    assert h[..0] == [];
  }

  lemma HistoryIs(p: Peer, l: Log, last: int)
    requires Upto(p, l, last)
    ensures var oldest := Max(l.first, last - 29);
            && 0 <= oldest - l.first <= |l.scheduled| == last - l.first + 1
            && EndsWith(l.scheduled, p.history, oldest - l.first) && Consecutive(p.history, oldest)
  {
    hide Accounted, Packets;
    var from := Max(l.first, last - 29) - l.first;
    assert p.history == l.scheduled[from..];
    assert forall i :: 0 <= i < |p.history| ==> p.history[i] == l.scheduled[from + i];
  }

  lemma NoneRedundant(h: seq<Sent>, oldest: int, frame: int)
    requires Consecutive(h, oldest) && frame <= oldest
    ensures RedundantFor(h, frame) == []
  {
    BeforeIs(h, oldest, frame);
    hide Before, Consecutive;
  }

  lemma SomeRedundant(h: seq<Sent>, s: seq<Sent>, first: int, oldest: int, frame: int)
    requires first <= oldest < frame <= first + |s|
    requires Consecutive(h, oldest) && EndsWith(s, h, oldest - first)
    ensures RedundantFor(h, frame) == s[Max(frame - 5, oldest) - first..frame - first]
  {
    EndsSize(s, h, oldest - first);
    BeforeIs(h, oldest, frame);
    NewestOfPart(s, h, oldest - first, frame - oldest, 5);
    hide Before, Consecutive, EndsWith, Newest;
    assert Max(oldest - first + (frame - oldest) - 5, oldest - first) == Max(frame - 5, oldest) - first;
  }

  /** The redundant copies with a frame: the five before it, of those among the newest thirty sent. */
  lemma RedundantIs(p: Peer, l: Log, last: int, frame: int)
    requires Upto(p, l, last) && l.first <= frame <= last
    ensures var oldest := Max(l.first, last - 29);
            && 0 <= oldest - l.first <= |l.scheduled| == last - l.first + 1
            && RedundantFor(p.history, frame)
               == if frame <= oldest then []
                  else l.scheduled[Max(frame - 5, oldest) - l.first..frame - l.first]
  {
    hide Upto, Consecutive, RedundantFor, EndsWith;
    HistoryIs(p, l, last);
    var oldest := Max(l.first, last - 29);
    if frame <= oldest {
      NoneRedundant(p.history, oldest, frame);
    } else {
      SomeRedundant(p.history, l.scheduled, l.first, oldest, frame);
    }
  }

  lemma EndsSize(s: seq<Sent>, h: seq<Sent>, from: nat)
    requires EndsWith(s, h, from)
    ensures |s| == from + |h|
  {
  }

  lemma {:induction false} InsertKeeps(s: seq<Packet>, x: Packet)
    ensures forall y :: y in Insert(s, x) <==> y == x || y in s
  {
    if s != [] && !Before2(x, s[0]) {
      InsertKeeps(s[1..], x);
      assert s == [s[0]] + s[1..];
    }
  }

  lemma {:induction false} SortedKeeps(s: seq<Packet>)
    ensures forall y :: y in Sorted(s) <==> y in s
  {
    if s != [] {
      SortedKeeps(s[..|s| - 1]);
      InsertKeeps(Sorted(s[..|s| - 1]), s[|s| - 1]);
      assert s == s[..|s| - 1] + [s[|s| - 1]];
    }
  }

  ghost predicate InOrder(s: seq<Packet>) {
    forall i, j :: 0 <= i < j < |s| ==> Before2(s[i], s[j])
  }

  lemma {:induction false} InsertInOrder(s: seq<Packet>, x: Packet)
    requires InOrder(s)
    ensures InOrder(Insert(s, x))
  {
    if s != [] && !Before2(x, s[0]) {
      InsertInOrder(s[1..], x);
      InsertKeeps(s[1..], x);
      var rest := Insert(s[1..], x);
      forall j | 0 <= j < |rest| ensures Before2(s[0], rest[j]) {
        assert rest[j] in rest;
      }
    }
  }

  lemma {:induction false} SortedInOrder(s: seq<Packet>)
    ensures InOrder(Sorted(s))
  {
    if s != [] {
      SortedInOrder(s[..|s| - 1]);
      InsertInOrder(Sorted(s[..|s| - 1]), s[|s| - 1]);
    }
  }

  /** What a tick delivers and leaves: everything due, by time then frame, and nothing else. */
  lemma DeliversWhatIsDue(p: Peer, now: real, engine: nat, fates: Fates)
    ensures var (p', ds) := TickStep(p, now, engine, fates);
            var queue := Scheduled(p, now, engine, fates).queue;
            && (forall x :: x in queue && x.due <= now <==> exists i :: 0 <= i < |ds| && ds[i].packet == x)
            && (forall x :: x in p'.queue <==> x in queue && x.due > now)
            && (forall i, j :: 0 <= i < j < |ds| ==>
                  ds[i].packet.due < ds[j].packet.due
                  || (ds[i].packet.due == ds[j].packet.due && ds[i].packet.frame <= ds[j].packet.frame))
  {
    hide Scheduled;
    var queue := Scheduled(p, now, engine, fates).queue;
    var due := Due(queue, now, true);
    var l := Log(0, [], multiset{}, multiset{}, multiset{}, 0);
    DueKeeps(queue, now, true, l);
    DueKeeps(queue, now, false, l);
    SortedKeeps(due);
    SortedInOrder(due);
    hide Due, Sorted;
    var ds := TickStep(p, now, engine, fates).1;
    forall x | x in queue && x.due <= now ensures exists i :: 0 <= i < |ds| && ds[i].packet == x {
      var i :| 0 <= i < |Sorted(due)| && Sorted(due)[i] == x;
      assert ds[i].packet == x;
    }
    forall i | 0 <= i < |ds| ensures ds[i].packet in queue && ds[i].packet.due <= now {
      assert ds[i].packet in Sorted(due);
    }
  }

  /**
   * What a delivered packet brings the engine: its own input and, of the five frames before it,
   * those still among the newest thirty sent. So a lost frame g still arrives with any packet
   * g+1 to g+5 delivered while at most 29 newer frames have been sent, and with no other.
   */
  lemma LostFrameRecovered(ops: seq<Op>, now: real, engine: nat, fates: Fates, i: nat, g: int)
    requires i < |TickStep(Run(ops).0, now, engine, fates).1|
    ensures var (p', l') := Run(ops + [Tick(now, engine, fates)]);
            var d := TickStep(Run(ops).0, now, engine, fates).1[i];
            && PacketOf(d.packet, l')
            && ((exists j :: 0 <= j < |d.redundant| && d.redundant[j].frame == g)
                <==> l'.first <= g && d.packet.frame - 5 <= g < d.packet.frame && p'.lastSeen - g <= 29)
            && (forall j :: 0 <= j < |d.redundant| ==> d.redundant[j] in l'.scheduled)
  {
    var op := Tick(now, engine, fates);
    assert (ops + [op])[..|ops|] == ops;
    RunKeepsInv(ops);
    hide Inv, Upto, Scheduled, LogScheduled, Due, Sorted, RedundantFor, PacketOf;
    var (p, l) := Run(ops);
    ScheduledUpto(p, l, now, engine, fates);
    var (p', l') := Run(ops + [op]);
    DeliveryCarries(Scheduled(p, now, engine, fates), LogScheduled(p, l, engine, fates), l', now, i, g);
  }

  lemma DeliveryCarries(s: Peer, l: Log, l': Log, now: real, i: nat, g: int)
    requires Upto(s, l, s.lastSeen) && i < |Sorted(Due(s.queue, now, true))|
    requires l'.first == l.first && l'.scheduled == l.scheduled
    ensures var packet := Sorted(Due(s.queue, now, true))[i];
            var redundant := RedundantFor(s.history, packet.frame);
            && PacketOf(packet, l')
            && ((exists j :: 0 <= j < |redundant| && redundant[j].frame == g)
                <==> l'.first <= g && packet.frame - 5 <= g < packet.frame && s.lastSeen - g <= 29)
            && (forall j :: 0 <= j < |redundant| ==> redundant[j] in l'.scheduled)
  {
    hide Due, Sorted, RedundantFor, Upto, PacketOf, Consecutive;
    SortedDueIsQueued(s.queue, now, i);
    var packet := Sorted(Due(s.queue, now, true))[i];
    QueuedIsSent(s, l, packet);
    PacketSent(packet, l, l');
    RedundantIs(s, l, s.lastSeen, packet.frame);
    var oldest := Max(l.first, s.lastSeen - 29);
    var redundant := RedundantFor(s.history, packet.frame);
    SliceHas(l.scheduled, l.first, oldest, packet.frame, g, redundant);
    assert oldest <= g <==> l.first <= g && s.lastSeen - g <= 29;
  }

  lemma SortedDueIsQueued(queue: seq<Packet>, now: real, i: nat)
    requires i < |Sorted(Due(queue, now, true))|
    ensures Sorted(Due(queue, now, true))[i] in queue
  {
    var due := Due(queue, now, true);
    DueKeeps(queue, now, true, Log(0, [], multiset{}, multiset{}, multiset{}, 0));
    SortedKeeps(due);
    hide Due, Sorted;
    assert Sorted(due)[i] in due;
  }

  lemma QueuedIsSent(s: Peer, l: Log, packet: Packet)
    requires Upto(s, l, s.lastSeen) && packet in s.queue
    ensures PacketOf(packet, l) && Consecutive(l.scheduled, l.first) && packet.frame <= s.lastSeen
  {
    hide Accounted, Newest;
    var i :| 0 <= i < |s.queue| && s.queue[i] == packet;
    assert PacketOf(s.queue[i], l);
  }

  lemma PacketSent(packet: Packet, l: Log, l': Log)
    requires PacketOf(packet, l) && l'.first == l.first && l'.scheduled == l.scheduled
    ensures PacketOf(packet, l') && l.first <= packet.frame < l.first + |l.scheduled|
  {
  }

  /** The five frames before a frame, of those from `oldest` on, as a part of what was sent. */
  lemma SliceHas(sent: seq<Sent>, first: int, oldest: int, frame: int, g: int, part: seq<Sent>)
    requires Consecutive(sent, first) && first <= oldest && first <= frame < first + |sent|
    requires part == if frame <= oldest then [] else sent[Max(frame - 5, oldest) - first..frame - first]
    ensures (exists j :: 0 <= j < |part| && part[j].frame == g) <==> oldest <= g && frame - 5 <= g < frame
    ensures forall j :: 0 <= j < |part| ==> part[j] in sent
  {
    var from := Max(frame - 5, oldest);
    if from < frame {
      assert forall j :: 0 <= j < |part| ==> part[j] == sent[from - first + j] && part[j].frame == from + j;
      if from <= g < frame { assert part[g - from].frame == g; }
    }
  }

  // ── Stalls ────────────────────────────────────────────────────────────────

  /** Ticks while the engine shows the same frame. */
  function Stuck(p: Peer, engine: nat, ticks: seq<(real, Fates)>): Peer {
    if ticks == [] then p
    else TickStep(Stuck(p, engine, ticks[..|ticks| - 1]), ticks[|ticks| - 1].0, engine, ticks[|ticks| - 1].1).0
  }

  lemma {:induction false} ScheduleToKeeps(p: Peer, from: int, target: int, now: real, fates: Fates)
    ensures ScheduleTo(p, from, target, now, fates).lastSeen == p.lastSeen
    ensures ScheduleTo(p, from, target, now, fates).stallTicks == p.stallTicks
    ensures ScheduleTo(p, from, target, now, fates).lastForStall == p.lastForStall
    decreases target - from
  {
    if target >= from { ScheduleToKeeps(p, from, target - 1, now, fates); }
  }

  /**
   * However long the engine waits on one frame, the peer goes on sending: from the fourth tick
   * one frame a tick until six past it, so the wait cannot be for a frame never sent.
   */
  lemma {:induction false} StallIsBridged(p: Peer, engine: nat, ticks: seq<(real, Fates)>)
    requires ticks != []
    ensures var q := Stuck(p, engine, ticks);
            && q.lastForStall == engine && q.stallTicks >= |ticks| - 1
            && engine + Max(0, Min(|ticks| - 3, STALL_LOOKAHEAD_FRAMES)) <= q.lastSeen
            && q.lastSeen - engine <= RESET_BACKWARD_THRESHOLD
  {
    var n := |ticks| - 1;
    var before := Stuck(p, engine, ticks[..n]);
    TickSees(before, ticks[n].0, engine, ticks[n].1);
    hide TickStep;
    if n > 0 {
      StallIsBridged(p, engine, ticks[..n]);
    }
  }

  lemma TickSees(p: Peer, now: real, engine: nat, fates: Fates)
    ensures var q, p' := Started(p, engine), TickStep(p, now, engine, fates).0;
            && p'.stallTicks == q.stallTicks && p'.lastForStall == q.lastForStall
            && p'.lastSeen == Max(q.lastSeen, Target(q, engine))
  {
    var q := Started(p, engine);
    ScheduleToKeeps(q, q.lastSeen + 1, Target(q, engine), now, fates);
    hide ScheduleTo, Due, Deliveries, Sorted, Target;
  }
}
