/**
 * The rollback instrument's reducer (web/static/rollback-timeline.js). Times and depths are
 * reals, rollback totals integers, and the track has at least one tick.
 */
module Timeline {
  import opened Basics
  import opened Wrappers

  const ADVANCE_INTERVAL_MS := 550.0
  const REWIND_BAD_MS := 260.0
  const REPLAY_STEP_MS := 220.0
  const LOCKSTEP_BASE_MS := 260.0
  const LOCKSTEP_MS_PER_FRAME := 90.0

  datatype Mode = Rollback | Lockstep

  datatype Phase = Idle | Advance | RewindBad | RewindReplay | LockstepWait

  datatype Mark = Plain | Bad | Replay

  datatype Caption = WrongGuess | Rewinding | Waiting

  datatype State = State(
    trackTicks: nat,
    headIndex: nat,
    tickState: seq<Mark>,
    mode: Mode,
    phase: Phase,
    phaseUntil: real,
    seen: int,
    rewindDepth: nat,
    rewindReplayed: nat,
    rewindIdx: seq<nat>,
    caption: Option<Caption>,
    matchActive: bool
  )

  datatype Input = Input(mode: Mode, matchActive: bool, total: int, avgRollbackDepth: real, delay: real)

  function Plains(n: nat): (r: seq<Mark>)
    ensures |r| == n
  {
    seq(n, i => Plain)
  }

  function CreateState(trackTicks: nat): State {
    State(trackTicks, 0, Plains(trackTicks), Rollback, Idle, 0.0, 0, 0, 0, [], None, false)
  }

  function MaxDepth(trackTicks: nat): nat {
    Max(1, Min(4, trackTicks - 2))
  }

  function ClampDepth(raw: real, trackTicks: nat): (d: nat)
    ensures 1 <= d <= MaxDepth(trackTicks) == (if trackTicks >= 6 then 4 else if trackTicks > 3 then trackTicks - 2 else 1)
    ensures raw < 1.5 ==> d == 1
    ensures raw >= MaxDepth(trackTicks) as real ==> d == MaxDepth(trackTicks)
    ensures 1.0 <= raw <= MaxDepth(trackTicks) as real ==> raw - 0.5 < d as real <= raw + 0.5
  {
    var rounded := (raw + 0.5).Floor;
    var d := if rounded == 0 then 1 else rounded;
    Max(1, Min(MaxDepth(trackTicks), d))
  }

  function ResetAnimation(s: State): State {
    s.(phase := Idle, phaseUntil := 0.0, tickState := Plains(s.trackTicks), caption := None,
       rewindDepth := 0, rewindReplayed := 0, rewindIdx := [])
  }

  /** i ticks back from the head, round the track. */
  function Back(head: nat, i: nat, n: nat): nat
    requires head < n && i < n
  {
    if i <= head then head - i else head - i + n
  }

  function BackFrom(head: nat, depth: nat, n: nat): seq<nat>
    requires head < n && depth <= n
  {
    seq(depth, i requires 0 <= i < depth => Back(head, i, n))
  }

  /** The remainder as JavaScript has it, with the sign of the dividend. */
  function Remainder(a: int, n: nat): int
    requires n > 0
  {
    if a >= 0 then a % n else -((-a) % n)
  }

  lemma BackIsRemainder(head: nat, i: nat, n: nat)
    requires head < n && i < n
    ensures Remainder(Remainder(head - i, n) + n, n) == Back(head, i, n)
  {
    ModSmall(if i <= head then head - i else i - head, n);
    ModSmall(head - i + n, n);
  }

  function Marked(ticks: seq<Mark>, idx: seq<nat>, mark: Mark): (r: seq<Mark>)
    requires forall i :: 0 <= i < |idx| ==> idx[i] < |ticks|
    ensures |r| == |ticks|
  {
    if idx == [] then ticks else Marked(ticks, idx[..|idx| - 1], mark)[idx[|idx| - 1] := mark]
  }

  predicate InRewind(s: State) {
    s.phase == RewindBad || s.phase == RewindReplay
  }

  /** The mode and match changes at the head of a reduction. */
  function Resync(s: State, input: Input): State {
    var a := if input.mode != s.mode then ResetAnimation(s.(mode := input.mode)) else s;
    if input.matchActive != a.matchActive
    then ResetAnimation(a.(matchActive := input.matchActive)).(seen := input.total)
    else a
  }

  predicate WellFormed(s: State) {
    && s.trackTicks > 0 && |s.tickState| == s.trackTicks && s.headIndex < s.trackTicks
    && forall i :: 0 <= i < |s.rewindIdx| ==> s.rewindIdx[i] < s.trackTicks
  }

  function DepthOf(s: State, input: Input): nat {
    ClampDepth(if input.avgRollbackDepth == 0.0 then 1.0 else input.avgRollbackDepth, s.trackTicks)
  }

  function StartRewind(s: State, input: Input, now: real): State
    requires WellFormed(s)
  {
    var depth := DepthOf(s, input);
    var idx := BackFrom(s.headIndex, depth, s.trackTicks);
    s.(seen := input.total, tickState := Marked(s.tickState, idx, Bad), rewindIdx := idx, rewindDepth := depth,
       rewindReplayed := 0, phase := RewindBad, phaseUntil := now + REWIND_BAD_MS, caption := Some(WrongGuess))
  }

  function StartReplay(s: State, now: real): State
    requires WellFormed(s)
  {
    s.(tickState := Marked(s.tickState, s.rewindIdx, Replay), phase := RewindReplay,
       phaseUntil := now + REPLAY_STEP_MS, caption := Some(Rewinding))
  }

  function StepReplay(s: State, now: real): State
    requires WellFormed(s)
  {
    if s.rewindReplayed + 1 < s.rewindDepth
    then s.(rewindReplayed := s.rewindReplayed + 1, phaseUntil := now + REPLAY_STEP_MS)
    else s.(tickState := Marked(s.tickState, s.rewindIdx, Plain), rewindIdx := [], rewindDepth := 0,
            rewindReplayed := 0, phase := Advance, phaseUntil := now + ADVANCE_INTERVAL_MS, caption := None)
  }

  function Forward(s: State, phaseUntil: real): State
    requires WellFormed(s)
  {
    s.(headIndex := Basics.Advance(s.headIndex, 1, s.trackTicks), phaseUntil := phaseUntil)
  }

  function WaitMs(delay: real): real {
    LOCKSTEP_BASE_MS + (if delay > 0.0 then delay else 0.0) * LOCKSTEP_MS_PER_FRAME
  }

  function Animate(s: State, input: Input, now: real): State
    requires WellFormed(s)
  {
    if s.mode == Lockstep then
      if s.phase != LockstepWait
      then s.(phase := LockstepWait, phaseUntil := now + WaitMs(input.delay), caption := Some(Waiting))
      else if now >= s.phaseUntil then Forward(s, now + WaitMs(input.delay)) else s
    else if input.total > s.seen && !InRewind(s) then StartRewind(s, input, now)
    else if s.phase == RewindBad then (if now >= s.phaseUntil then StartReplay(s, now) else s)
    else if s.phase == RewindReplay then (if now >= s.phaseUntil then StepReplay(s, now) else s)
    else if s.phase != Advance then s.(phase := Advance, phaseUntil := now + ADVANCE_INTERVAL_MS)
    else if now >= s.phaseUntil then Forward(s, now + ADVANCE_INTERVAL_MS)
    else s
  }

  function Reduced(s: State, input: Input, now: real): State
    requires WellFormed(s)
  {
    var r := Resync(s, input);
    if r.matchActive then Animate(r, input, now) else r
  }

  method MarkTicks(ticks: seq<Mark>, idx: seq<nat>, mark: Mark) returns (marked: seq<Mark>)
    requires forall i :: 0 <= i < |idx| ==> idx[i] < |ticks|
    ensures marked == Marked(ticks, idx, mark)
  {
    marked := ticks;
    for i := 0 to |idx|
      invariant marked == Marked(ticks, idx[..i], mark)
    {
      assert idx[..i + 1][..i] == idx[..i];
      marked := marked[idx[i] := mark];
    }
    assert idx[..|idx|] == idx;
  }

  method RewindTicks(head: nat, depth: nat, n: nat) returns (idx: seq<nat>)
    requires head < n && depth <= n
    ensures idx == BackFrom(head, depth, n) && forall i :: 0 <= i < |idx| ==> idx[i] < n
  {
    hide Remainder;
    idx := [];
    for i := 0 to depth
      invariant idx == BackFrom(head, i, n)
    {
      BackIsRemainder(head, i, n);
      idx := idx + [Remainder(Remainder(head - i, n) + n, n)];
    }
  }

  /** The reducer, which changes a copy of the state it is given. */
  method Reduce(state: State, input: Input, now: real) returns (s: State)
    requires WellFormed(state)
    ensures s == Reduced(state, input, now)
  {
    hide Marked, BackFrom, Plains, WaitMs, ClampDepth, Basics.Advance;
    s := state;
    if input.mode != s.mode {
      s := s.(mode := input.mode);
      s := ResetAnimation(s);
    }
    if input.matchActive != s.matchActive {
      s := s.(matchActive := input.matchActive);
      s := ResetAnimation(s);
      s := s.(seen := input.total);
    }
    assert s == Resync(state, input);
    if !s.matchActive { return; }
    if s.mode == Rollback {
      var delta := input.total - s.seen;
      var midRewind := s.phase == RewindBad || s.phase == RewindReplay;
      if delta > 0 && !midRewind {
        var depth := DepthOf(s, input);
        var idx := RewindTicks(s.headIndex, depth, s.trackTicks);
        var ticks := MarkTicks(s.tickState, idx, Bad);
        s := s.(seen := input.total, tickState := ticks, rewindIdx := idx, rewindDepth := depth, rewindReplayed := 0,
                phase := RewindBad, phaseUntil := now + REWIND_BAD_MS, caption := Some(WrongGuess));
        return;
      }
      if s.phase == RewindBad {
        if now >= s.phaseUntil {
          var ticks := MarkTicks(s.tickState, s.rewindIdx, Replay);
          s := s.(tickState := ticks, phase := RewindReplay, phaseUntil := now + REPLAY_STEP_MS,
                  caption := Some(Rewinding));
        }
        return;
      }
      if s.phase == RewindReplay {
        if now >= s.phaseUntil {
          if s.rewindReplayed + 1 < s.rewindDepth {
            s := s.(rewindReplayed := s.rewindReplayed + 1, phaseUntil := now + REPLAY_STEP_MS);
          } else {
            var ticks := MarkTicks(s.tickState, s.rewindIdx, Plain);
            s := s.(tickState := ticks, rewindIdx := [], rewindDepth := 0, rewindReplayed := 0, phase := Advance,
                    phaseUntil := now + ADVANCE_INTERVAL_MS, caption := None);
          }
        }
        return;
      }
      if s.phase != Advance {
        s := s.(phase := Advance, phaseUntil := now + ADVANCE_INTERVAL_MS);
        return;
      }
      if now >= s.phaseUntil { s := Forward(s, now + ADVANCE_INTERVAL_MS); }
      return;
    }
    if s.phase != LockstepWait {
      s := s.(phase := LockstepWait, phaseUntil := now + WaitMs(input.delay), caption := Some(Waiting));
      return;
    }
    if now >= s.phaseUntil { s := Forward(s, now + WaitMs(input.delay)); }
  }

  // ── What every run keeps ──────────────────────────────────────────────────

  predicate MarksAre(ticks: seq<Mark>, idx: seq<nat>, mark: Mark) {
    forall i :: 0 <= i < |ticks| ==> ticks[i] == if i in idx then mark else Plain
  }

  predicate Distinct(idx: seq<nat>) {
    forall i, j :: 0 <= i < j < |idx| ==> idx[i] != idx[j]
  }

  /** The coloured ticks are exactly those of the rewind in progress, which ends at the head. */
  predicate Inv(s: State) {
    && WellFormed(s)
    && (s.phase == LockstepWait ==> s.mode == Lockstep)
    && (s.phase == Advance || InRewind(s) ==> s.mode == Rollback && s.matchActive)
    && (!s.matchActive ==> s.phase == Idle)
    && s.caption == (match s.phase
                     case RewindBad => Some(WrongGuess)
                     case RewindReplay => Some(Rewinding)
                     case LockstepWait => Some(Waiting)
                     case _ => None)
    && if InRewind(s)
       then && s.rewindReplayed < s.rewindDepth == |s.rewindIdx| <= MaxDepth(s.trackTicks)
            && s.rewindIdx == BackFrom(s.headIndex, s.rewindDepth, s.trackTicks) && Distinct(s.rewindIdx)
            && MarksAre(s.tickState, s.rewindIdx, if s.phase == RewindBad then Bad else Replay)
            && (s.phase == RewindBad ==> s.rewindReplayed == 0)
       else s.rewindIdx == [] && s.rewindDepth == 0 && s.rewindReplayed == 0 && MarksAre(s.tickState, [], Bad)
  }

  lemma {:induction false} MarkedIs(ticks: seq<Mark>, idx: seq<nat>, mark: Mark)
    requires forall i :: 0 <= i < |idx| ==> idx[i] < |ticks|
    ensures forall i :: 0 <= i < |ticks| ==> Marked(ticks, idx, mark)[i] == if i in idx then mark else ticks[i]
  {
    if idx != [] {
      MarkedIs(ticks, idx[..|idx| - 1], mark);
      assert idx == idx[..|idx| - 1] + [idx[|idx| - 1]];
    }
  }

  lemma DistinctBack(head: nat, depth: nat, n: nat)
    requires head < n && depth <= n
    ensures Distinct(BackFrom(head, depth, n))
  {
  }

  lemma ResyncKeepsInv(s: State, input: Input)
    requires Inv(s)
    ensures Inv(Resync(s, input)) && Resync(s, input).headIndex == s.headIndex
    ensures Resync(s, input).mode == input.mode && Resync(s, input).matchActive == input.matchActive
  {
    hide BackFrom, Distinct;
  }

  lemma StartRewindKeepsInv(s: State, input: Input, now: real)
    requires Inv(s) && !InRewind(s) && s.matchActive && s.mode == Rollback
    ensures Inv(StartRewind(s, input, now))
  {
    var depth := DepthOf(s, input);
    var idx := BackFrom(s.headIndex, depth, s.trackTicks);
    MarkedIs(s.tickState, idx, Bad);
    DistinctBack(s.headIndex, depth, s.trackTicks);
    hide Marked, ClampDepth, Distinct;
  }

  lemma StartReplayKeepsInv(s: State, now: real)
    requires Inv(s) && s.phase == RewindBad
    ensures Inv(StartReplay(s, now))
  {
    MarkedIs(s.tickState, s.rewindIdx, Replay);
    hide Marked, BackFrom, Distinct;
  }

  lemma StepReplayKeepsInv(s: State, now: real)
    requires Inv(s) && s.phase == RewindReplay
    ensures Inv(StepReplay(s, now))
  {
    MarkedIs(s.tickState, s.rewindIdx, Plain);
    hide Marked, BackFrom, Distinct;
  }

  lemma ReducedKeepsInv(s: State, input: Input, now: real)
    requires Inv(s)
    ensures Inv(Reduced(s, input, now))
  {
    ResyncKeepsInv(s, input);
    var r := Resync(s, input);
    if r.matchActive {
      if r.mode == Lockstep {
      } else if input.total > r.seen && !InRewind(r) {
        StartRewindKeepsInv(r, input, now);
      } else if r.phase == RewindBad {
        StartReplayKeepsInv(r, now);
      } else if r.phase == RewindReplay {
        StepReplayKeepsInv(r, now);
      }
    }
    hide Resync, StartRewind, StartReplay, StepReplay, BackFrom, Distinct, MarksAre;
  }

  /** The head stays where it is from the call that starts a rewind to the one that ends it. */
  lemma HeadStaysInRewind(s: State, input: Input, now: real)
    requires Inv(s) && (InRewind(s) || InRewind(Reduced(s, input, now)))
    ensures Reduced(s, input, now).headIndex == s.headIndex
  {
    ResyncKeepsInv(s, input);
    hide Marked, BackFrom, Distinct, MarksAre, ClampDepth, Plains;
  }

  /** No misprediction is passed over: a call that does not find a rewind in progress sees them all. */
  lemma NothingPassedOver(s: State, input: Input, now: real)
    requires Inv(s) && input.matchActive && input.mode == Rollback
    ensures InRewind(s) || Reduced(s, input, now).seen >= input.total
    ensures Reduced(s, input, now).seen >= input.total || Reduced(s, input, now).seen == s.seen
  {
    ResyncKeepsInv(s, input);
    hide Marked, BackFrom, Distinct, MarksAre, ClampDepth, Plains;
  }

  /** Rewinds begun in this match, the total it began with, and when the last of them began. */
  datatype Log = Log(rewinds: nat, base: int, began: real)

  predicate Begins(s: State, s': State) {
    s'.phase == RewindBad && (s.phase != RewindBad || s.matchActive != s'.matchActive || s.mode != s'.mode)
  }

  function LogReduce(s: State, l: Log, input: Input, now: real): Log
    requires WellFormed(s)
  {
    var s' := Reduced(s, input, now);
    var l' := if s.matchActive != s'.matchActive then Log(0, s'.seen, l.began) else l;
    if Begins(s, s') then l'.(rewinds := l'.rewinds + 1, began := now) else l'
  }

  /** At least one new misprediction for each rewind; each phase of one lasts its full time. */
  predicate Timed(s: State, l: Log) {
    && (s.matchActive ==> l.rewinds <= s.seen - l.base)
    && (s.phase == RewindBad ==> s.phaseUntil == l.began + REWIND_BAD_MS)
    && (s.phase == RewindReplay ==>
          l.began + REWIND_BAD_MS + REPLAY_STEP_MS * (s.rewindReplayed + 1) as real <= s.phaseUntil)
  }

  lemma LogKeepsTimed(s: State, l: Log, input: Input, now: real)
    requires Inv(s) && Timed(s, l)
    ensures Timed(Reduced(s, input, now), LogReduce(s, l, input, now))
  {
    hide Marked, BackFrom, Distinct, MarksAre, ClampDepth, Plains;
  }

  function Run(trackTicks: nat, inputs: seq<(Input, real)>): (r: (State, Log))
    requires trackTicks > 0
    ensures WellFormed(r.0)
  {
    if inputs == [] then (CreateState(trackTicks), Log(0, 0, 0.0))
    else
      var (s, l) := Run(trackTicks, inputs[..|inputs| - 1]);
      var (input, now) := inputs[|inputs| - 1];
      (Reduced(s, input, now), LogReduce(s, l, input, now))
  }

  /**
   * Over every run: the coloured ticks are the distinct ticks of an active rewind no longer than
   * the engine's depth allows, lockstep colours none, and within a match there are no more
   * rewinds than new mispredictions.
   */
  lemma {:induction false} RunKeepsInv(trackTicks: nat, inputs: seq<(Input, real)>)
    requires trackTicks > 0
    ensures Inv(Run(trackTicks, inputs).0) && Timed(Run(trackTicks, inputs).0, Run(trackTicks, inputs).1)
    ensures Run(trackTicks, inputs).0.mode == Lockstep ==> MarksAre(Run(trackTicks, inputs).0.tickState, [], Bad)
  {
    hide Reduced, LogReduce, Distinct, MaxDepth;
    if inputs == [] {
      assert Inv(CreateState(trackTicks));
    } else {
      var (s, l) := Run(trackTicks, inputs[..|inputs| - 1]);
      RunKeepsInv(trackTicks, inputs[..|inputs| - 1]);
      ReducedKeepsInv(s, inputs[|inputs| - 1].0, inputs[|inputs| - 1].1);
      LogKeepsTimed(s, l, inputs[|inputs| - 1].0, inputs[|inputs| - 1].1);
    }
  }

  /** A rewind of depth d that is not cut off by a mode or match change lasts its red phase and d replay steps. */
  lemma RewindLasts(trackTicks: nat, inputs: seq<(Input, real)>, input: Input, now: real)
    requires trackTicks > 0
    requires var s := Run(trackTicks, inputs).0;
             InRewind(s) && input.mode == s.mode && input.matchActive && !InRewind(Reduced(s, input, now))
    ensures var (s, l) := Run(trackTicks, inputs);
            now >= l.began + 260.0 + 220.0 * s.rewindDepth as real
  {
    RunKeepsInv(trackTicks, inputs);
    hide Marked, BackFrom, Distinct, MarksAre, ClampDepth, Plains, Run;
  }

  // ── Every call counts ─────────────────────────────────────────────────────

  /** A call that finds the mode, the match and the mispredictions as they were. */
  predicate NothingNew(s: State, input: Input) {
    input.mode == s.mode && input.matchActive && s.matchActive && input.total <= s.seen
  }

  /** How many calls of a rewind's are still to come at or past their deadlines. */
  function Remaining(s: State): nat {
    if s.phase == RewindBad then s.rewindDepth + 1
    else if s.phase == RewindReplay && s.rewindReplayed < s.rewindDepth then s.rewindDepth - s.rewindReplayed
    else 0
  }

  /**
   * A call finds a rewind one step further if its deadline has come, and as it was if not; a
   * rewind starts with its depth and one steps to come, and is over when none is left.
   */
  lemma RewindGoesOn(s: State, input: Input, now: real)
    requires Inv(s) && InRewind(s) && input.mode == s.mode && input.matchActive
    ensures Remaining(s) > 0 && Remaining(Reduced(s, input, now)) == Remaining(s) - (if now >= s.phaseUntil then 1 else 0)
    ensures InRewind(Reduced(s, input, now)) <==> Remaining(Reduced(s, input, now)) > 0
    ensures now >= s.phaseUntil ==>
              Reduced(s, input, now).phaseUntil == now + (if InRewind(Reduced(s, input, now)) then 220.0 else 550.0)
    ensures now < s.phaseUntil ==> Reduced(s, input, now) == s
  {
    hide Marked, BackFrom, Distinct, MarksAre, ClampDepth, Plains;
  }

  /** A new misprediction outside a rewind starts one, as deep as the engine says, to the nearest tick the track can show. */
  lemma RewindStarts(s: State, input: Input, now: real)
    requires Inv(s) && !InRewind(s) && s.mode == Rollback == input.mode && s.matchActive && input.matchActive
    requires input.total > s.seen
    ensures var s', max := Reduced(s, input, now), if s.trackTicks >= 6 then 4 else if s.trackTicks > 3 then s.trackTicks - 2 else 1;
            && s'.phase == RewindBad && s'.phaseUntil == now + 260.0 && s'.seen == input.total
            && 1 <= s'.rewindDepth <= max
            && (1.0 <= input.avgRollbackDepth <= max as real ==>
                  input.avgRollbackDepth - 0.5 < s'.rewindDepth as real <= input.avgRollbackDepth + 0.5)
  {
    hide Marked, BackFrom, Distinct, MarksAre, Plains;
  }

  /** The time between two ticks of the head: 550 ms, or in lockstep 260 and 90 for each frame of delay. */
  function Interval(input: Input): real {
    if input.mode == Rollback then 550.0
    else if input.delay > 0.0 then 260.0 + 90.0 * input.delay
    else 260.0
  }

  /** How often the head moves in some calls, and when it is next due. */
  function Moves(due: real, calls: seq<(Input, real)>): (nat, real) {
    if calls == [] then (0, due)
    else
      var (n, next) := Moves(due, calls[..|calls| - 1]);
      var (input, now) := calls[|calls| - 1];
      if now >= next then (n + 1, now + Interval(input)) else (n, next)
  }

  function After(s: State, calls: seq<(Input, real)>): (r: State)
    requires Inv(s)
    ensures Inv(r)
  {
    if calls == [] then s
    else
      var front, last := After(s, calls[..|calls| - 1]), calls[|calls| - 1];
      ReducedKeepsInv(front, last.0, last.1);
      Reduced(front, last.0, last.1)
  }

  predicate Moving(s: State) {
    (s.phase == Advance && s.mode == Rollback) || (s.phase == LockstepWait && s.mode == Lockstep)
  }

  /**
   * With nothing new to show, the head moves on one tick, round the track, at every call that comes
   * when it is due, the interval counting from that call, and at no other call; and nothing else
   * changes.
   */
  lemma {:induction false} HeadMovesOn(s: State, calls: seq<(Input, real)>)
    requires Inv(s) && Moving(s) && forall i :: 0 <= i < |calls| ==> NothingNew(s, calls[i].0)
    ensures var (n, due) := Moves(s.phaseUntil, calls);
            After(s, calls) == s.(headIndex := (s.headIndex + n) % s.trackTicks, phaseUntil := due)
  {
    if calls == [] {
      ModSmall(s.headIndex, s.trackTicks);
    } else {
      var (n, due) := Moves(s.phaseUntil, calls[..|calls| - 1]);
      var (input, now) := calls[|calls| - 1];
      HeadMovesOn(s, calls[..|calls| - 1]);
      assert NothingNew(s, calls[|calls| - 1].0);
      MoveOnce(After(s, calls[..|calls| - 1]), input, now);
      ModSucc(s.headIndex + n, s.trackTicks);
    }
  }

  lemma MoveOnce(s: State, input: Input, now: real)
    requires Inv(s) && Moving(s) && NothingNew(s, input)
    ensures Reduced(s, input, now)
            == if now >= s.phaseUntil
               then s.(headIndex := Wrap(s.headIndex + 1, s.trackTicks), phaseUntil := now + Interval(input))
               else s
  {
    hide Plains, MarksAre;
  }

  /**
   * A new match, or another mode with nothing new to show, sets the head going from where it is,
   * one interval from now. Mispredictions counted before a match are never shown in it.
   */
  lemma StartsMoving(s: State, input: Input, now: real)
    requires Inv(s) && input.matchActive && (!s.matchActive || input.mode != s.mode || s.phase == Idle)
    requires !s.matchActive || input.mode == Lockstep || input.total <= s.seen
    ensures var s' := Reduced(s, input, now);
            && Moving(s') && s'.phaseUntil == now + Interval(input) && s'.headIndex == s.headIndex
            && s'.seen == (if s.matchActive then s.seen else input.total)
  {
    hide MarksAre, Plains;
  }
}
