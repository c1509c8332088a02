/**
 * The deduplication of desync flags, over any run at all: ticks in any order, either mode, any
 * scene phases. Between two clearings of the detector, a field's flags are sixty frames apart,
 * and a difference that is not flagged is covered by a flag less than sixty frames older.
 */
module DesyncFlags {
  import opened Wrappers
  import opened Desync
  import opened DesyncRun

  predicate IsFlag(e: Event, field: nat) {
    e.FieldFlag? && e.field == field
  }

  ghost predicate FlaggedAt(events: seq<Event>, field: nat, frame: int) {
    exists i :: 0 <= i < |events| && IsFlag(events[i], field) && events[i].frame == frame
  }

  /** A field's flags are sixty frames apart, the first not before frame 59, and `last` has the last. */
  ghost predicate SpacedFor(f: Flags, field: nat) {
    && (forall i :: 0 <= i < |f.events| && IsFlag(f.events[i], field) ==>
          field in f.last && 59 <= f.events[i].frame <= f.last[field])
    && (forall i, j :: 0 <= i < j < |f.events| && IsFlag(f.events[i], field) && IsFlag(f.events[j], field) ==>
          f.events[i].frame + 60 <= f.events[j].frame)
    && (field in f.last ==> FlaggedAt(f.events, field, f.last[field]))
  }

  ghost predicate Spaced(f: Flags) {
    forall field :: SpacedFor(f, field)
  }

  lemma FlaggedStays(events: seq<Event>, e: Event, field: nat, frame: int)
    requires FlaggedAt(events, field, frame)
    ensures FlaggedAt(events + [e], field, frame)
  {
    var i :| 0 <= i < |events| && IsFlag(events[i], field) && events[i].frame == frame;
    assert (events + [e])[i] == events[i];
  }

  lemma OtherKeepsSpaced(f: Flags, e: Event, g: Flags, field: nat)
    requires SpacedFor(f, field) && !IsFlag(e, field) && g.events == f.events + [e]
    requires LastFlagged(f.last, field) == LastFlagged(g.last, field) && (field in f.last <==> field in g.last)
    ensures SpacedFor(g, field)
  {
    if field in f.last { FlaggedStays(f.events, e, field, f.last[field]); }
    hide FlaggedAt;
  }

  lemma OwnKeepsSpaced(f: Flags, e: Event, g: Flags)
    requires e.FieldFlag? && SpacedFor(f, e.field) && e.frame - LastFlagged(f.last, e.field) >= DEDUP_WINDOW
    requires g.last == f.last[e.field := e.frame] && g.events == f.events + [e]
    ensures SpacedFor(g, e.field)
  {
    assert IsFlag(g.events[|f.events|], e.field);
  }

  lemma FlagKeepsSpaced(f: Flags, e: Event, g: Flags)
    requires Spaced(f) && e.FieldFlag? && e.frame - LastFlagged(f.last, e.field) >= DEDUP_WINDOW
    requires g == f.(last := f.last[e.field := e.frame], events := f.events + [e])
    ensures Spaced(g)
  {
    hide SpacedFor;
    OwnKeepsSpaced(f, e, g);
    forall field ensures SpacedFor(g, field) {
      if field != e.field { OtherKeepsSpaced(f, e, g, field); }
    }
  }

  lemma PhaseKeepsSpaced(f: Flags, e: Event, g: Flags)
    requires Spaced(f) && e.PhaseFlag? && g.last == f.last && g.events == f.events + [e]
    ensures Spaced(g)
  {
    hide SpacedFor;
    forall field ensures SpacedFor(g, field) {
      OtherKeepsSpaced(f, e, g, field);
    }
  }

  lemma SpacedSame(f: Flags, g: Flags)
    requires Spaced(f) && g.last == f.last && g.events == f.events
    ensures Spaced(g)
  {
    forall field ensures SpacedFor(g, field) { assert SpacedFor(f, field); }
  }

  /** A differing field was flagged less than sixty frames ago, unless the first window is not over. */
  ghost predicate Covered(f: Flags, a: Digest, b: Digest, phase: int, field: nat) {
    Differs(a, b, phase, field) ==> a.frame - LastFlagged(f.last, field) < DEDUP_WINDOW
  }

  lemma {:induction false} FieldsKeepSpaced(f: Flags, a: Side, b: Side, phase: int, n: nat)
    requires Spaced(f)
    ensures Spaced(DiffFields(f, a, b, phase, n))
    ensures forall field :: 0 <= field < n ==> Covered(DiffFields(f, a, b, phase, n), a.digest, b.digest, phase, field)
  {
    if n > 0 {
      FieldsKeepSpaced(f, a, b, phase, n - 1);
      var g, g' := DiffFields(f, a, b, phase, n - 1), DiffFields(f, a, b, phase, n);
      if g' != g { FlagKeepsSpaced(g, g'.events[|g.events|], g'); }
      hide Spaced, Differs;
      assert Covered(g', a.digest, b.digest, phase, n - 1);
      forall field | 0 <= field < n - 1 ensures Covered(g', a.digest, b.digest, phase, field) {
        assert Covered(g, a.digest, b.digest, phase, field);
      }
    }
  }

  lemma DiffKeepsSpaced(f: Flags, pair: Pair, phase: int)
    requires Spaced(f)
    ensures Spaced(Diff(f, pair, phase))
  {
    hide DiffFields, Spaced;
    var g := f.(compared := f.compared + [pair]);
    SpacedSame(f, g);
    FieldsKeepSpaced(g, pair.0, pair.1, phase, FIELD_COUNT);
    if HashOf(pair.0.digest, MATCH_PHASE) != HashOf(pair.1.digest, MATCH_PHASE) {
      PhaseKeepsSpaced(f, PhaseFlag(pair.0.digest.frame, pair.0.peer, pair.1.peer), Diff(f, pair, phase));
    }
  }

  lemma {:induction false} DiffAllKeepsSpaced(f: Flags, pairs: seq<Pair>, phase: int)
    requires Spaced(f)
    ensures Spaced(DiffAll(f, pairs, phase))
  {
    hide Diff, Spaced;
    if pairs != [] {
      DiffAllKeepsSpaced(f, pairs[..|pairs| - 1], phase);
      DiffKeepsSpaced(DiffAll(f, pairs[..|pairs| - 1], phase), pairs[|pairs| - 1], phase);
    }
  }

  /** Whatever ticks and digests come, in whatever order. */
  lemma {:induction false} FlagsAreSpaced(role: Role, start: int, ops: seq<(Op, int)>)
    ensures Spaced(Run(role, start, ops).0.flags)
  {
    if ops != [] {
      var (s, op) := (Run(role, start, ops[..|ops| - 1]).0, ops[|ops| - 1]);
      FlagsAreSpaced(role, start, ops[..|ops| - 1]);
      hide Spaced, DiffAll, TickPairs, LocalPair;
      match op.0 {
        case Tick(frame, realPeer, replay, hashes) =>
          DiffAllKeepsSpaced(s.flags, TickPairs(role, Digest(frame, hashes), Hits(s.peers, s.digests, frame)), op.1);
        case Deliver(peer, d) =>
          if d.frame in s.local {
            DiffAllKeepsSpaced(s.flags, LocalPair(role, s.local[d.frame], Side(Some(peer), d)), op.1);
          }
      }
    }
  }

  /** Two digests whose hashes of a field are not the same; a hash one of them lacks counts as different. */
  predicate HashesDiffer(a: Digest, b: Digest, field: nat) {
    if field < |a.hashes| && field < |b.hashes| then a.hashes[field] != b.hashes[field]
    else field < |a.hashes| || field < |b.hashes|
  }

  /**
   * Comparing two digests: a difference in the phase (field 17) is always flagged and is the only
   * flag. Otherwise every other of the 21 fields that differs has a flag less than sixty frames
   * older, its own if there was none, from frame 59 on and in the scene where the field means
   * something: the stocks and the three battle fields in a battle (22), the cursors and selections
   * on the character screen (16), the characters and the random seed anywhere.
   */
  lemma NoDifferenceUnflagged(f: Flags, pair: Pair, phase: int, field: nat)
    requires Spaced(f) && field < 21 && field != 17
    ensures var (a, b) := (pair.0.digest, pair.1.digest);
            var g := Diff(f, pair, phase);
            && (HashesDiffer(a, b, 17) ==> g.events == f.events + [PhaseFlag(a.frame, pair.0.peer, pair.1.peer)])
            && (!HashesDiffer(a, b, 17) && HashesDiffer(a, b, field) && a.frame >= 59
                && (field in [0, 1, 2, 3, 18, 19, 20] ==> phase == 22)
                && (8 <= field <= 15 ==> phase == 16) ==>
                  exists i :: 0 <= i < |g.events| && IsFlag(g.events[i], field) && a.frame - g.events[i].frame < 60)
  {
    hide DiffFields;
    var (a, b) := (pair.0.digest, pair.1.digest);
    var g := f.(compared := f.compared + [pair]);
    SpacedSame(f, g);
    FieldsKeepSpaced(g, pair.0, pair.1, phase, FIELD_COUNT);
    var h := Diff(f, pair, phase);
    if HashOf(a, MATCH_PHASE) == HashOf(b, MATCH_PHASE) && Differs(a, b, phase, field) && a.frame >= DEDUP_WINDOW - 1 {
      hide Differs;
      assert Covered(h, a, b, phase, field);
      assert field in h.last;
      assert SpacedFor(h, field);
    }
  }

  /** Before frame 59 a field's difference raises nothing, because an unflagged field counts as flagged at -1. */
  lemma {:induction false} NoFieldFlagBefore59(f: Flags, a: Side, b: Side, phase: int, n: nat)
    requires a.digest.frame < 59 && Spaced(f)
    ensures DiffFields(f, a, b, phase, n) == f
  {
    if n > 0 {
      NoFieldFlagBefore59(f, a, b, phase, n - 1);
      assert SpacedFor(f, n - 1);
    }
  }

  /** A flag's event stands for a pair of digests that were compared and do differ there. */
  ghost predicate Shows(e: Event, pair: Pair) {
    var (a, b) := pair;
    && e.frame == a.digest.frame && e.a == a.peer && e.b == b.peer
    && match e
       case PhaseFlag(_, _, _) => HashesDiffer(a.digest, b.digest, 17)
       case FieldFlag(_, field, slot, _, _) =>
         && !HashesDiffer(a.digest, b.digest, 17) && HashesDiffer(a.digest, b.digest, field)
         && field < 21 && field != 17 && slot == (if field < 16 then Some(field % 4) else None)
  }

  ghost predicate Shown(e: Event, pairs: seq<Pair>) {
    exists k :: 0 <= k < |pairs| && Shows(e, pairs[k])
  }

  ghost predicate AllShown(f: Flags) {
    forall i :: 0 <= i < |f.events| ==> Shown(f.events[i], f.compared)
  }

  lemma ShownLater(e: Event, pairs: seq<Pair>, pair: Pair)
    requires Shown(e, pairs) || Shows(e, pair)
    ensures Shown(e, pairs + [pair])
  {
    if Shows(e, pair) {
      assert (pairs + [pair])[|pairs|] == pair;
    } else {
      var k :| 0 <= k < |pairs| && Shows(e, pairs[k]);
      assert (pairs + [pair])[k] == pairs[k];
    }
  }

  lemma {:induction false} FieldsShow(f: Flags, a: Side, b: Side, phase: int, n: nat)
    requires !HashesDiffer(a.digest, b.digest, 17) && n <= 21
    ensures var g := DiffFields(f, a, b, phase, n);
            && f.events <= g.events && forall i :: |f.events| <= i < |g.events| ==> Shows(g.events[i], (a, b))
  {
    if n > 0 { FieldsShow(f, a, b, phase, n - 1); }
  }

  lemma DiffShows(f: Flags, pair: Pair, phase: int)
    requires AllShown(f)
    ensures AllShown(Diff(f, pair, phase))
  {
    var (a, b) := pair;
    var g, h := f.(compared := f.compared + [pair]), Diff(f, pair, phase);
    if HashOf(a.digest, MATCH_PHASE) == HashOf(b.digest, MATCH_PHASE) {
      FieldsShow(g, a, b, phase, FIELD_COUNT);
      DiffFieldsKeeps(g, a, b, phase, FIELD_COUNT);
    }
    hide Shown, DiffFields;
    forall i | 0 <= i < |h.events| ensures Shown(h.events[i], h.compared) {
      if i < |f.events| { assert h.events[i] == f.events[i]; }
      ShownLater(h.events[i], f.compared, pair);
    }
  }

  lemma {:induction false} DiffAllShows(f: Flags, pairs: seq<Pair>, phase: int)
    requires AllShown(f)
    ensures AllShown(DiffAll(f, pairs, phase))
  {
    hide Diff, AllShown;
    if pairs != [] {
      DiffAllShows(f, pairs[..|pairs| - 1], phase);
      DiffShows(DiffAll(f, pairs[..|pairs| - 1], phase), pairs[|pairs| - 1], phase);
    }
  }

  /** No flag without a difference: each stands for two digests that were compared and differ in its field. */
  lemma {:induction false} FlagsAreDifferences(role: Role, start: int, ops: seq<(Op, int)>)
    ensures AllShown(Run(role, start, ops).0.flags)
  {
    if ops != [] {
      var (s, op) := (Run(role, start, ops[..|ops| - 1]).0, ops[|ops| - 1]);
      FlagsAreDifferences(role, start, ops[..|ops| - 1]);
      hide AllShown, DiffAll, TickPairs, LocalPair;
      match op.0 {
        case Tick(frame, realPeer, replay, hashes) =>
          DiffAllShows(s.flags, TickPairs(role, Digest(frame, hashes), Hits(s.peers, s.digests, frame)), op.1);
        case Deliver(peer, d) =>
          if d.frame in s.local {
            DiffAllShows(s.flags, LocalPair(role, s.local[d.frame], Side(Some(peer), d)), op.1);
          }
      }
    }
  }

  /** The scenes in which a field's difference may be flagged. */
  ghost predicate FitsPhase(e: Event, phase: int) {
    e.FieldFlag? ==> (e.field in [0, 1, 2, 3, 18, 19, 20] ==> phase == 22) && (8 <= e.field <= 15 ==> phase == 16)
  }

  ghost predicate AddsFitting(f: Flags, g: Flags, phase: int) {
    f.events <= g.events && forall i :: |f.events| <= i < |g.events| ==> FitsPhase(g.events[i], phase)
  }

  lemma {:induction false} FieldsFit(f: Flags, a: Side, b: Side, phase: int, n: nat)
    ensures AddsFitting(f, DiffFields(f, a, b, phase, n), phase)
  {
    if n > 0 { FieldsFit(f, a, b, phase, n - 1); }
  }

  lemma {:induction false} DiffAllFits(f: Flags, pairs: seq<Pair>, phase: int)
    ensures AddsFitting(f, DiffAll(f, pairs, phase), phase)
  {
    hide DiffFields, FitsPhase;
    if pairs != [] {
      var n := |pairs| - 1;
      DiffAllFits(f, pairs[..n], phase);
      var g := DiffAll(f, pairs[..n], phase);
      FieldsFit(g.(compared := g.compared + [pairs[n]]), pairs[n].0, pairs[n].1, phase, FIELD_COUNT);
      PhaseFits(phase, pairs[n]);
    }
  }

  lemma PhaseFits(phase: int, pair: Pair)
    ensures FitsPhase(PhaseFlag(pair.0.digest.frame, pair.0.peer, pair.1.peer), phase)
  {
  }

  /** Whatever the detector holds, an operation only adds flags, and field flags only in the scenes they are for. */
  lemma FlagsFitThePhase(s: State, role: Role, op: Op, phase: int)
    ensures AddsFitting(s.flags, Do(s, role, op, phase).flags, phase)
  {
    hide AddsFitting, DiffAll, TickPairs, LocalPair, Hits;
    NothingAdded(s.flags, phase);
    match op {
      case Tick(frame, realPeer, replay, hashes) =>
        DiffAllFits(s.flags, TickPairs(role, Digest(frame, hashes), Hits(s.peers, s.digests, frame)), phase);
      case Deliver(peer, d) =>
        if d.frame in s.local {
          DiffAllFits(s.flags, LocalPair(role, s.local[d.frame], Side(Some(peer), d)), phase);
        }
    }
  }

  lemma NothingAdded(f: Flags, phase: int)
    ensures AddsFitting(f, f, phase)
  {
  }
}
