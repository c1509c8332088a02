/**
 * Whole runs of an audio ring: where every sample goes, that left never plays as right, and how
 * far behind the producer the output can be. A ring without a bleed is one whose target is its
 * size (`NoBleed`), so the statements that do not mention latency hold of both rings.
 */
module AudioRun {
  import opened AudioRing
  import opened Basics

  datatype Event = Message(int16: seq<int>) | Quantum(frames: nat)

  /** A ring and everything that ever happened to a sample in it. */
  datatype Run = Run(
    queue: seq<real>,
    pushed: seq<real>,
    played: seq<(real, real)>,
    // For each played pair, which sample of `pushed` its left one is.
    origin: seq<nat>,
    bled: nat,
    overflowed: nat
  )

  function Pairs(q: seq<real>, n: nat): seq<(real, real)>
    requires 2 * n <= |q|
  {
    seq(n, i requires 0 <= i < n => (q[2 * i], q[2 * i + 1]))
  }

  function Origins(first: nat, n: nat): seq<nat> {
    seq(n, i requires 0 <= i < n => first + 2 * i)
  }

  function Do(r: Run, e: Event, size: nat, target: nat): Run
    requires |r.queue| <= size && |r.queue| <= |r.pushed|
  {
    match e
    case Message(m) =>
      var queue := Newest(r.queue + Samples(m), size);
      r.(queue := queue, pushed := r.pushed + Samples(m),
         overflowed := r.overflowed + (|r.queue| + |m| - |queue|))
    case Quantum(frames) =>
      var b := Bleed(|r.queue|, target);
      var q := r.queue[b..];
      var n := Playable(|q|, frames);
      r.(queue := Rest(q, frames), played := r.played + Pairs(q, n),
         origin := r.origin + Origins(|r.pushed| - |q|, n), bled := r.bled + b)
  }

  /** The queue is what was pushed last, and every sample is accounted for. */
  ghost predicate Accounted(r: Run, size: nat) {
    && |r.queue| <= size && |r.queue| <= |r.pushed|
    && r.queue == r.pushed[|r.pushed| - |r.queue|..]
    && |r.pushed| == 2 * |r.played| + r.bled + r.overflowed + |r.queue|
  }

  lemma MessageAccounted(r: Run, m: seq<int>, size: nat, target: nat)
    requires Accounted(r, size)
    ensures Accounted(Do(r, Message(m), size, target), size)
  {
    var s := Samples(m);
    var p := r.pushed + s;
    assert r.queue + s == p[|r.pushed| - |r.queue|..];
    var queue := Newest(r.queue + s, size);
    assert queue == p[|p| - |queue|..];
  }

  lemma QuantumAccounted(r: Run, frames: nat, size: nat, target: nat)
    requires Accounted(r, size)
    ensures Accounted(Do(r, Quantum(frames), size, target), size)
  {
    var b := Bleed(|r.queue|, target);
    var q := r.queue[b..];
    var rest := Rest(q, frames);
    assert q == r.pushed[|r.pushed| - |q|..];
    assert rest == r.pushed[|r.pushed| - |rest|..];
  }

  ghost predicate Reaches(run: seq<Run>, events: seq<Event>, size: nat, target: nat) {
    && |run| == |events| + 1
    && run[0] == Run([], [], [], [], 0, 0)
    && (forall i :: 0 <= i < |events| ==> StepAt(run[i], events[i], run[i + 1], size, target))
  }

  ghost predicate StepAt(r: Run, e: Event, r': Run, size: nat, target: nat) {
    |r.queue| <= size && |r.queue| <= |r.pushed| && r' == Do(r, e, size, target)
  }

  /** Pushed = played + bled + overflowed + queued, after any run of either ring. */
  lemma {:induction false} NothingUnaccounted(run: seq<Run>, events: seq<Event>, size: nat, target: nat)
    requires Reaches(run, events, size, target)
    ensures Accounted(run[|events|], size)
  {
    if events != [] {
      var n := |events| - 1;
      NothingUnaccounted(run[..n + 1], events[..n], size, target);
      assert StepAt(run[n], events[n], run[n + 1], size, target);
      match events[n] {
        case Message(m) => MessageAccounted(run[n], m, size, target);
        case Quantum(frames) => QuantumAccounted(run[n], frames, size, target);
      }
    }
  }

  // ── Stereo ────────────────────────────────────────────────────────────────

  predicate EvenMessage(e: Event) {
    e.Message? ==> |e.int16| % 2 == 0
  }

  predicate PlayedAt(r: Run, i: nat)
    requires i < |r.played| && i < |r.origin|
  {
    && r.origin[i] % 2 == 0 && r.origin[i] + 1 < |r.pushed|
    && r.played[i] == (r.pushed[r.origin[i]], r.pushed[r.origin[i] + 1])
  }

  /** Everything played is a pair of the input, in the input's order, none of it twice. */
  ghost predicate Aligned(r: Run) {
    && |r.queue| % 2 == 0 && |r.pushed| % 2 == 0 && |r.origin| == |r.played|
    && (forall i :: 0 <= i < |r.played| ==> PlayedAt(r, i) && r.origin[i] + 2 <= |r.pushed| - |r.queue|)
    && (forall i, j :: 0 <= i < j < |r.origin| ==> r.origin[i] < r.origin[j])
  }

  lemma MessageAligned(r: Run, m: seq<int>, size: nat, target: nat)
    requires Accounted(r, size) && Aligned(r) && |m| % 2 == 0 && size % 2 == 0
    ensures Aligned(Do(r, Message(m), size, target))
  {
    var r' := Do(r, Message(m), size, target);
    forall i | 0 <= i < |r'.played|
      ensures PlayedAt(r', i) && r'.origin[i] + 2 <= |r'.pushed| - |r'.queue|
    {
      assert PlayedAt(r, i);
    }
  }

  lemma {:induction false} PlayAligned(r: Run, r': Run, q: seq<real>, n: nat)
    requires Aligned(r) && |q| <= |r.queue| && |q| % 2 == 0 && |r.queue| <= |r.pushed|
    requires q == r.pushed[|r.pushed| - |q|..] && 2 * n <= |q|
    requires r'.pushed == r.pushed && |r'.queue| == |q| - 2 * n
    requires r'.played == r.played + Pairs(q, n) && r'.origin == r.origin + Origins(|r.pushed| - |q|, n)
    ensures Aligned(r')
  {
    var first := |r.pushed| - |q|;
    forall i | 0 <= i < |r'.played|
      ensures PlayedAt(r', i) && r'.origin[i] + 2 <= |r'.pushed| - |r'.queue|
      ensures i >= |r.played| ==> r'.origin[i] == first + 2 * (i - |r.played|)
      ensures i < |r.played| ==> r'.origin[i] == r.origin[i] < first
    {
      if i < |r.played| {
        assert PlayedAt(r, i);
      } else {
        var k := i - |r.played|;
        assert r'.origin[i] == first + 2 * k && r'.played[i] == (q[2 * k], q[2 * k + 1]);
      }
    }
  }

  lemma QuantumAligned(r: Run, frames: nat, size: nat, target: nat)
    requires Accounted(r, size) && Aligned(r)
    ensures Aligned(Do(r, Quantum(frames), size, target))
  {
    hide Aligned;
    assert |r.queue| % 2 == 0 by { EvenQueue(r); }
    var q := r.queue[Bleed(|r.queue|, target)..];
    assert q == r.pushed[|r.pushed| - |q|..];
    PlayAligned(r, Do(r, Quantum(frames), size, target), q, Playable(|q|, frames));
  }

  lemma EvenQueue(r: Run)
    requires Aligned(r)
    ensures |r.queue| % 2 == 0
  {
  }

  /** While every message is whole pairs, left plays as left and right as right. */
  lemma {:induction false} ParityNeverBreaks(run: seq<Run>, events: seq<Event>, size: nat, target: nat)
    requires Reaches(run, events, size, target) && size % 2 == 0
    requires forall i :: 0 <= i < |events| ==> EvenMessage(events[i])
    ensures Aligned(run[|events|])
  {
    if events != [] {
      var n := |events| - 1;
      ParityNeverBreaks(run[..n + 1], events[..n], size, target);
      NothingUnaccounted(run[..n + 1], events[..n], size, target);
      assert StepAt(run[n], events[n], run[n + 1], size, target) && EvenMessage(events[n]);
      match events[n] {
        case Message(m) => MessageAligned(run[n], m, size, target);
        case Quantum(frames) => QuantumAligned(run[n], frames, size, target);
      }
    }
  }

  // ── Latency ───────────────────────────────────────────────────────────────

  /** What is queued after p samples arrive and a quantum plays, c having been queued before. */
  function BacklogSize(c: nat, p: nat, frames: nat, size: nat, target: nat): nat {
    var pushed := Min(c + p, size);
    Max(0, pushed - Bleed(pushed, target) - 2 * frames)
  }

  /** The backlog left by messages and quanta in turn, starting at c. */
  function After(c: nat, messages: seq<nat>, frames: nat, size: nat, target: nat): nat {
    if messages == [] then c
    else BacklogSize(After(c, messages[..|messages| - 1], frames, size, target),
                     messages[|messages| - 1], frames, size, target)
  }

  lemma BacklogIsItsSize(r: Run, m: seq<int>, frames: nat, size: nat, target: nat)
    requires Accounted(r, size) && |r.queue| % 2 == 0 && |m| % 2 == 0 && size % 2 == 0
    ensures Accounted(Do(r, Message(m), size, target), size)
    ensures |Do(Do(r, Message(m), size, target), Quantum(frames), size, target).queue|
            == BacklogSize(|r.queue|, |m|, frames, size, target)
  {
    MessageAccounted(r, m, size, target);
    var pushed := Do(r, Message(m), size, target);
    assert |pushed.queue| == Min(|r.queue| + |m|, size);
    QueueAfterQuantum(pushed, frames, size, target);
  }

  lemma QueueAfterQuantum(r: Run, frames: nat, size: nat, target: nat)
    requires |r.queue| <= size && |r.queue| <= |r.pushed| && |r.queue| % 2 == 0
    ensures |Do(r, Quantum(frames), size, target).queue|
            == Max(0, |r.queue| - Bleed(|r.queue|, target) - 2 * frames)
  {
    hide Bleed;
  }

  lemma OneQuantum(c: nat, p: nat, frames: nat, size: nat, target: nat, d: nat)
    requires c % 2 == 0 && p % 2 == 0 && size % 2 == 0 && target % 2 == 0
    requires p + d <= 2 * frames + 32
    ensures BacklogSize(c, p, frames, size, target) % 2 == 0
    ensures BacklogSize(c, p, frames, size, target) <= Max(c - d, target)
  {
    EvenBleed(Min(c + p, size), target);
    hide Bleed;
  }

  lemma EvenBleed(count: nat, target: nat)
    requires count % 2 == 0 && target % 2 == 0
    ensures Bleed(count, target) == Max(0, Min(count - target, 32))
  {
  }

  lemma {:induction false} AfterConverges(
    c: nat, messages: seq<nat>, frames: nat, size: nat, target: nat, d: nat)
    requires c % 2 == 0 && size % 2 == 0 && target % 2 == 0
    requires forall i :: 0 <= i < |messages| ==> messages[i] % 2 == 0 && messages[i] + d <= 2 * frames + 32
    ensures After(c, messages, frames, size, target) % 2 == 0
    ensures After(c, messages, frames, size, target) <= Max(c - |messages| * d, target)
  {
    hide BacklogSize;
    if messages != [] {
      var n := |messages| - 1;
      AfterConverges(c, messages[..n], frames, size, target, d);
      assert |messages| * d == n * d + d;
      OneQuantum(After(c, messages[..n], frames, size, target), messages[n], frames, size, target, d);
    }
  }

  /** Messages and quanta in turn. */
  function InTurn(messages: seq<seq<int>>, frames: nat): seq<Event> {
    if messages == [] then []
    else InTurn(messages[..|messages| - 1], frames) + [Message(messages[|messages| - 1]), Quantum(frames)]
  }

  function Lengths(messages: seq<seq<int>>): (lengths: seq<nat>)
    ensures |lengths| == |messages|
  {
    seq(|messages|, i requires 0 <= i < |messages| => |messages[i]|)
  }

  predicate WholePairs(messages: seq<seq<int>>) {
    forall i :: 0 <= i < |messages| ==> |messages[i]| % 2 == 0
  }

  lemma {:induction false} InTurnIsEven(messages: seq<seq<int>>, frames: nat)
    requires WholePairs(messages)
    ensures |InTurn(messages, frames)| == 2 * |messages|
    ensures forall i :: 0 <= i < |InTurn(messages, frames)| ==> EvenMessage(InTurn(messages, frames)[i])
  {
    if messages != [] { InTurnIsEven(messages[..|messages| - 1], frames); }
  }

  lemma ReachesFront(run: seq<Run>, events: seq<Event>, n: nat, size: nat, target: nat)
    requires Reaches(run, events, size, target) && n <= |events|
    ensures Reaches(run[..n + 1], events[..n], size, target)
  {
    forall i | 0 <= i < n ensures StepAt(run[..n + 1][i], events[..n][i], run[..n + 1][i + 1], size, target) {
      assert StepAt(run[i], events[i], run[i + 1], size, target);
    }
  }

  /** The backlog of a ring, from any state it reaches, is what the recurrence says. */
  lemma {:induction false} BacklogIsAfter(
    run: seq<Run>, before: seq<Event>, messages: seq<seq<int>>, frames: nat, size: nat, target: nat)
    requires Reaches(run, before + InTurn(messages, frames), size, target) && size % 2 == 0
    requires WholePairs(messages) && forall i :: 0 <= i < |before| ==> EvenMessage(before[i])
    ensures |run[|run| - 1].queue| == After(|run[|before|].queue|, Lengths(messages), frames, size, target)
    decreases |messages|
  {
    hide BacklogSize, Do;
    var events := before + InTurn(messages, frames);
    if messages == [] {
      assert events == before && Lengths(messages) == [];
    } else {
      var n := |messages| - 1;
      var front := messages[..n];
      var shorter := before + InTurn(front, frames);
      InTurnIsEven(front, frames);
      var k := |shorter|;
      assert events == shorter + [Message(messages[n]), Quantum(frames)];
      assert events[..k] == shorter;
      ReachesFront(run, events, k, size, target);
      BacklogIsAfter(run[..k + 1], before, front, frames, size, target);
      NothingUnaccounted(run[..k + 1], shorter, size, target);
      ParityNeverBreaks(run[..k + 1], shorter, size, target);
      EvenQueue(run[k]);
      assert StepAt(run[k], events[k], run[k + 1], size, target) && StepAt(run[k + 1], events[k + 1], run[k + 2], size, target);
      BacklogIsItsSize(run[k], messages[n], frames, size, target);
      assert Lengths(messages)[..n] == Lengths(front);
    }
  }

  /**
   * While no quantum brings more than it plays and bleeds, less d, the backlog of a ring falls by
   * d a quantum, from any state it reaches, until it is at the target, and then stays there.
   */
  lemma LatencyConverges(
    run: seq<Run>, before: seq<Event>, messages: seq<seq<int>>, frames: nat, size: nat, target: nat, d: nat)
    requires Reaches(run, before + InTurn(messages, frames), size, target) && size % 2 == 0 && target % 2 == 0
    requires WholePairs(messages) && forall i :: 0 <= i < |before| ==> EvenMessage(before[i])
    requires forall i :: 0 <= i < |messages| ==> |messages[i]| + d <= 2 * frames + 32
    ensures |run[|run| - 1].queue| <= Max(|run[|before|].queue| - |messages| * d, target)
  {
    BacklogIsAfter(run, before, messages, frames, size, target);
    EvenBefore(run, before, messages, frames, size, target);
    AfterConverges(|run[|before|].queue|, Lengths(messages), frames, size, target, d);
  }

  lemma EvenBefore(run: seq<Run>, before: seq<Event>, messages: seq<seq<int>>, frames: nat, size: nat, target: nat)
    requires Reaches(run, before + InTurn(messages, frames), size, target) && size % 2 == 0
    requires forall i :: 0 <= i < |before| ==> EvenMessage(before[i])
    ensures |run[|before|].queue| % 2 == 0
  {
    var events, n := before + InTurn(messages, frames), |before|;
    ReachesFront(run, events, n, size, target);
    assert events[..n] == before;
    ParityNeverBreaks(run[..n + 1], before, size, target);
    EvenQueue(run[n]);
  }

  lemma PastTheCapOnce(c: nat, excess: nat, frames: nat, size: nat, target: nat)
    requires c % 2 == 0 && excess % 2 == 0 && size % 2 == 0 && target % 2 == 0
    requires target <= c + 2 * frames + excess && target + 32 + 2 * frames <= size
    ensures BacklogSize(c, 2 * frames + 32 + excess, frames, size, target)
            == Min(c + excess, size - 2 * frames - 32)
  {
    EvenBleed(Min(c + 2 * frames + 32 + excess, size), target);
    hide Bleed;
  }

  lemma {:induction false} AfterGrows(c: nat, messages: seq<nat>, excess: nat, frames: nat, size: nat, target: nat)
    requires c % 2 == 0 && excess % 2 == 0 && size % 2 == 0 && target % 2 == 0
    requires target <= c + 2 * frames + excess && target + 32 + 2 * frames <= size && messages != []
    requires forall i :: 0 <= i < |messages| ==> messages[i] == 2 * frames + 32 + excess
    ensures After(c, messages, frames, size, target) == Min(c + |messages| * excess, size - 2 * frames - 32)
  {
    hide BacklogSize;
    var n := |messages| - 1;
    assert |messages| * excess == n * excess + excess;
    EvenProduct(n, excess);
    if n > 0 { AfterGrows(c, messages[..n], excess, frames, size, target); }
    GrowsOnce(c, n * excess, After(c, messages[..n], frames, size, target), excess, frames, size, target);
  }

  lemma GrowsOnce(c: nat, grown: nat, was: nat, excess: nat, frames: nat, size: nat, target: nat)
    requires c % 2 == 0 && grown % 2 == 0 && excess % 2 == 0 && size % 2 == 0 && target % 2 == 0
    requires target <= c + 2 * frames + excess && target + 32 + 2 * frames <= size
    requires was == c + grown == c || was == Min(c + grown, size - 2 * frames - 32)
    ensures BacklogSize(was, 2 * frames + 32 + excess, frames, size, target)
            == Min(c + grown + excess, size - 2 * frames - 32)
  {
    PastTheCapOnce(was, excess, frames, size, target);
    hide BacklogSize;
  }

  lemma EvenProduct(n: nat, even: nat)
    requires even % 2 == 0
    ensures (n * even) % 2 == 0 && n * even >= 0
  {
    var half := even / 2;
    assert n * even == 2 * (n * half);
  }

  lemma EvenExcess(length: nat, frames: nat, excess: nat)
    requires length % 2 == 0 && length == 2 * frames + 32 + excess
    ensures excess % 2 == 0
  {
  }

  /** The bleed's cap is sharp: past it the backlog of a ring grows by the excess until the ring is full. */
  lemma PastTheCapItGrows(
    run: seq<Run>, before: seq<Event>, messages: seq<seq<int>>, excess: nat, frames: nat, size: nat, target: nat)
    requires Reaches(run, before + InTurn(messages, frames), size, target) && size % 2 == 0 && target % 2 == 0
    requires WholePairs(messages) && forall i :: 0 <= i < |before| ==> EvenMessage(before[i])
    requires messages != [] && forall i :: 0 <= i < |messages| ==> |messages[i]| == 2 * frames + 32 + excess
    requires target <= |run[|before|].queue| + 2 * frames + excess && target + 32 + 2 * frames <= size
    ensures |run[|run| - 1].queue| == Min(|run[|before|].queue| + |messages| * excess, size - 2 * frames - 32)
  {
    BacklogIsAfter(run, before, messages, frames, size, target);
    EvenBefore(run, before, messages, frames, size, target);
    hide Reaches, After, InTurn, Aligned;
    EvenExcess(|messages[0]|, frames, excess);
    AfterGrows(|run[|before|].queue|, Lengths(messages), excess, frames, size, target);
  }

  lemma NoBleed(count: nat, size: nat)
    requires count <= size
    ensures Bleed(count, size) == 0
  {
  }
}
