/**
 * The synthetic peer's frame scheduler (web/static/fake-peer.js): which frames it sends, what
 * its lossy, reordering network does to them, and what each delivered packet carries. Inputs are
 * numbers; whether a packet is lost, how long it takes and whether it swaps its delivery time
 * with the previous one are decided by a `Fate` per frame, so every statement holds for all of them.
 */
module FakePeer {
  import opened Basics

  const HISTORY: nat := 30
  const REDUNDANT_FRAMES: nat := 5
  const RESET_BACKWARD_THRESHOLD: int := 30
  const STALL_DETECT_FRAMES: nat := 3
  const STALL_LOOKAHEAD_FRAMES: int := 6

  datatype Sent = Sent(frame: int, input: int)

  datatype Packet = Packet(frame: int, input: int, due: real)

  datatype Delivery = Delivery(packet: Packet, redundant: seq<Sent>)

  datatype Fate = Fate(input: int, lost: bool, delay: real, swap: bool)

  type Fates = int -> Fate

  datatype Peer = Peer(lastSeen: int, queue: seq<Packet>, history: seq<Sent>, stallTicks: nat, lastForStall: int)

  /** The last few inputs generated before a frame. */
  function Before(history: seq<Sent>, frame: int): seq<Sent> {
    if history == [] then []
    else Before(history[..|history| - 1], frame)
         + (if history[|history| - 1].frame < frame then [history[|history| - 1]] else [])
  }

  function RedundantFor(history: seq<Sent>, frame: int): seq<Sent> {
    Newest(Before(history, frame), REDUNDANT_FRAMES)
  }

  /** The queue after a packet that was not lost, the previous one having its time swapped if so decided. */
  function Enqueue(queue: seq<Packet>, frame: int, now: real, f: Fate): seq<Packet> {
    var due := now + (if f.delay < 0.0 then 0.0 else f.delay);
    if f.swap && queue != [] then
      var last := |queue| - 1;
      queue[..last] + [queue[last].(due := due)] + [Packet(frame, f.input, queue[last].due)]
    else queue + [Packet(frame, f.input, due)]
  }

  function Schedule(p: Peer, frame: int, now: real, f: Fate): Peer {
    p.(history := Newest(p.history + [Sent(frame, f.input)], HISTORY),
       queue := if f.lost then p.queue else Enqueue(p.queue, frame, now, f))
  }

  /** Every frame from `from` to `target`. */
  function ScheduleTo(p: Peer, from: int, target: int, now: real, fates: Fates): Peer
    decreases target - from
  {
    if target < from then p
    else Schedule(ScheduleTo(p, from, target - 1, now, fates), target, now, fates(target))
  }

  predicate Resets(p: Peer, engine: int) {
    p.lastSeen < 0 || p.lastSeen - engine > RESET_BACKWARD_THRESHOLD
  }

  function Rebase(p: Peer, engine: int): Peer {
    if Resets(p, engine) then p.(lastSeen := Max(-1, engine - 1), queue := [], history := []) else p
  }

  function Stall(p: Peer, engine: int): Peer {
    if engine == p.lastForStall then p.(stallTicks := p.stallTicks + 1)
    else p.(stallTicks := 0, lastForStall := engine)
  }

  function Target(p: Peer, engine: int): int {
    var lookahead := if p.stallTicks >= STALL_DETECT_FRAMES then STALL_LOOKAHEAD_FRAMES else 0;
    Max(engine, Min(p.lastSeen + 1, engine + lookahead))
  }

  function Due(queue: seq<Packet>, now: real, due: bool): seq<Packet> {
    if queue == [] then []
    else Due(queue[..|queue| - 1], now, due)
         + (if (queue[|queue| - 1].due <= now) == due then [queue[|queue| - 1]] else [])
  }

  predicate Before2(a: Packet, b: Packet) {
    a.due < b.due || (a.due == b.due && a.frame <= b.frame)
  }

  function Insert(s: seq<Packet>, x: Packet): seq<Packet> {
    if s == [] || Before2(x, s[0]) then [x] + s else [s[0]] + Insert(s[1..], x)
  }

  /** By delivery time, then by frame. */
  function Sorted(s: seq<Packet>): seq<Packet> {
    if s == [] then [] else Insert(Sorted(s[..|s| - 1]), s[|s| - 1])
  }

  function Deliveries(due: seq<Packet>, history: seq<Sent>): seq<Delivery> {
    seq(|due|, i requires 0 <= i < |due| => Delivery(due[i], RedundantFor(history, due[i].frame)))
  }

  /** The state a tick drains from: rebased, its frames scheduled. */
  function Scheduled(p: Peer, now: real, engine: int, fates: Fates): Peer {
    var q := Stall(Rebase(p, engine), engine);
    var target := Target(q, engine);
    ScheduleTo(q, q.lastSeen + 1, target, now, fates).(lastSeen := Max(q.lastSeen, target))
  }

  function TickStep(p: Peer, now: real, engine: int, fates: Fates): (Peer, seq<Delivery>) {
    var s := Scheduled(p, now, engine, fates);
    (s.(queue := Due(s.queue, now, false)), Deliveries(Sorted(Due(s.queue, now, true)), s.history))
  }

  class Synthetic {
    var lastSeen: int
    var queue: seq<Packet>
    var history: seq<Sent>
    var stallTicks: nat
    var lastForStall: int

    function State(): Peer
      reads this
    {
      Peer(lastSeen, queue, history, stallTicks, lastForStall)
    }

    constructor ()
      ensures State() == Peer(-1, [], [], 0, -1)
    {
      lastSeen, queue, history, stallTicks, lastForStall := -1, [], [], 0, -1;
    }

    method RecordGeneratedInput(frame: int, input: int)
      modifies this`history
      ensures history == Newest(old(history) + [Sent(frame, input)], HISTORY)
    {
      history := history + [Sent(frame, input)];
      ghost var all := history;
      while |history| > HISTORY
        invariant history == all[|all| - |history|..] && (|all| <= HISTORY || |history| >= HISTORY)
        invariant |history| <= |all| && (|all| <= HISTORY ==> history == all)
        decreases |history|
      {
        history := history[1..];
      }
    }

    method ScheduleFrame(frame: int, now: real, f: Fate)
      modifies this`history, this`queue
      ensures State() == Schedule(old(State()), frame, now, f)
    {
      RecordGeneratedInput(frame, f.input);
      if f.lost { return; }
      var due := now + (if f.delay < 0.0 then 0.0 else f.delay);
      if f.swap && queue != [] {
        var last := |queue| - 1;
        var tmp := queue[last].due;
        queue := queue[..last] + [queue[last].(due := due)];
        due := tmp;
      }
      queue := queue + [Packet(frame, f.input, due)];
    }

    method DrainQueue(now: real) returns (delivered: seq<Delivery>)
      modifies this`queue
      ensures queue == Due(old(queue), now, false)
      ensures delivered == Deliveries(Sorted(Due(old(queue), now, true)), history)
    {
      var due, pending := [], [];
      for i := 0 to |queue|
        invariant due == Due(queue[..i], now, true) && pending == Due(queue[..i], now, false)
      {
        assert queue[..i + 1][..i] == queue[..i];
        if queue[i].due <= now { due := due + [queue[i]]; } else { pending := pending + [queue[i]]; }
      }
      assert queue[..|queue|] == queue;
      queue := pending;
      due := Sorted(due);
      delivered := [];
      for i := 0 to |due|
        invariant delivered == Deliveries(due[..i], history)
      {
        delivered := delivered + [Delivery(due[i], RedundantFor(history, due[i].frame))];
      }
      assert due[..|due|] == due;
    }

    /** The loop of a tick: one packet for every frame up to the target. */
    method ScheduleFrames(target: int, now: real, fates: Fates)
      modifies this`history, this`queue, this`lastSeen
      ensures State() == ScheduleTo(old(State()), old(lastSeen) + 1, target, now, fates)
                         .(lastSeen := Max(old(lastSeen), target))
    {
      hide Schedule;
      ghost var p := State();
      var frame := lastSeen + 1;
      while frame <= target
        invariant State() == ScheduleTo(p, p.lastSeen + 1, frame - 1, now, fates)
        invariant lastSeen == p.lastSeen < frame && (frame <= target + 1 || frame == p.lastSeen + 1)
        decreases target - frame
      {
        ScheduleFrame(frame, now, fates(frame));
        frame := frame + 1;
      }
      ScheduleToStops(p, p.lastSeen + 1, frame - 1, target, now, fates);
      lastSeen := Max(lastSeen, target);
    }

    /** A tick up to its target: a reset of the engine's counter, and the stall count. */
    method FindTarget(engine: int) returns (target: int)
      modifies this
      ensures State() == Stall(Rebase(old(State()), engine), engine) && target == Target(State(), engine)
    {
      if lastSeen < 0 || lastSeen - engine > RESET_BACKWARD_THRESHOLD {
        lastSeen := Max(-1, engine - 1);
        queue := [];
        history := [];
      }
      if engine == lastForStall {
        stallTicks := stallTicks + 1;
      } else {
        stallTicks := 0;
        lastForStall := engine;
      }
      var lookahead := if stallTicks >= STALL_DETECT_FRAMES then STALL_LOOKAHEAD_FRAMES else 0;
      var lookaheadCap := engine + lookahead;
      target := Max(engine, Min(lastSeen + 1, lookaheadCap));
    }

    method Tick(now: real, engine: int, fates: Fates) returns (delivered: seq<Delivery>)
      modifies this
      ensures (State(), delivered) == TickStep(old(State()), now, engine, fates)
    {
      hide Rebase, Stall, Target, ScheduleTo, Due, Sorted, Deliveries;
      var target := FindTarget(engine);
      ScheduleFrames(target, now, fates);
      delivered := DrainQueue(now);
    }
  }

  lemma ScheduleToStops(p: Peer, from: int, frame: int, target: int, now: real, fates: Fates)
    requires frame == target || (target <= frame && frame == from - 1)
    ensures ScheduleTo(p, from, frame, now, fates) == ScheduleTo(p, from, target, now, fates)
  {
  }
}
