/**
 * When a match's row expires, from what happened to the match alone: which event its deadline
 * counts from, over any run; and that what a flag reported is never lost while the row is there.
 */
module RetentionRun {
  import opened Wrappers
  import opened Flags
  import opened Retention

  // ── From events to deadlines ──────────────────────────────────────────────

  /** The event that a match's deadline counts from, and when it happened. */
  datatype Clock = Registered(at: real) | Ended(at: real) | LastFlagged(at: real) | Resolved(at: real)

  /** A flag that lifts a match to the flagged tier: any but an automatic one over budget. */
  predicate Lifts(step: Step, id: string) {
    step.FlagMatch? && step.id == id && !(step.auto && step.overBudget)
  }

  predicate FlagsIt(step: Step, id: string) {
    step.FlagMatch? && step.id == id
  }

  /** The step, taken in this state, is the event that the match's deadline counts from. */
  predicate Starts(w: World, step: Step, id: string, clock: Clock) {
    clock.at == w.now
    && match clock
       case Registered(_) => step == Register(id) && id !in w.rows
       case Ended(_) => step == End(id) && Accepts(w.rows, id) && w.rows[id].tier == Normal && w.rows[id].ended.None?
       case LastFlagged(_) =>
         && FlagsIt(step, id) && Accepts(w.rows, id) && w.rows[id].resolved.None?
         && (w.rows[id].tier == Normal ==> Lifts(step, id))
       case Resolved(_) => step == Resolve(id) && Accepts(w.rows, id) && w.rows[id].tier == Flagged
  }

  /** What a later step must not be for the deadline to go on counting from that event. */
  predicate Supersedes(step: Step, id: string, clock: Clock) {
    match clock
    case Registered(_) => step == End(id) || Lifts(step, id)
    case Ended(_) => Lifts(step, id)
    case LastFlagged(_) => FlagsIt(step, id) || step == Resolve(id)
    case Resolved(_) => step == Resolve(id)
  }

  predicate RowShows(row: Row, clock: Clock) {
    match clock
    case Registered(at) => row.tier == Normal && row.ended.None? && row.created == at
    case Ended(at) => row.tier == Normal && row.ended == Some(at)
    case LastFlagged(at) => row.tier == Flagged && row.resolved.None? && row.touched == at
    case Resolved(at) => row.tier == Flagged && row.resolved == Some(at)
  }

  lemma StartShows(w: World, step: Step, win: Windows, id: string, clock: Clock)
    requires Starts(w, step, id, clock)
    ensures var w' := Do(w, step, win); Accepts(w'.rows, id) && RowShows(w'.rows[id], clock)
  {
    hide IsBatch, MergeAll, Expired;
  }

  lemma StepShows(w: World, step: Step, win: Windows, id: string, clock: Clock)
    requires Accepts(w.rows, id) && RowShows(w.rows[id], clock) && !Supersedes(step, id, clock)
    ensures var w' := Do(w, step, win); Accepts(w'.rows, id) ==> RowShows(w'.rows[id], clock)
  {
    hide IsBatch, MergeAll, Expired;
  }

  /** The match is there without a tombstone all along. */
  ghost predicate StaysLive(w: World, steps: seq<Step>, win: Windows, id: string) {
    forall i :: 0 <= i <= |steps| ==> Accepts(Run(w, steps[..i], win).rows, id)
  }

  lemma {:induction false} RunShows(w: World, steps: seq<Step>, win: Windows, id: string, clock: Clock)
    requires RowShowsIn(w, id, clock) && StaysLive(w, steps, win, id)
    requires forall i :: 0 <= i < |steps| ==> !Supersedes(steps[i], id, clock)
    ensures RowShowsIn(Run(w, steps, win), id, clock)
  {
    hide Do, Supersedes, RowShows;
    if steps != [] {
      var front, last := steps[..|steps| - 1], steps[|steps| - 1];
      assert StaysLive(w, front, win, id) by {
        forall i | 0 <= i <= |front| ensures Accepts(Run(w, front[..i], win).rows, id) {
          assert front[..i] == steps[..i];
        }
      }
      RunShows(w, front, win, id, clock);
      StepShows(Run(w, front, win), last, win, id, clock);
      assert steps[..|steps|] == steps;
    }
  }

  ghost predicate RowShowsIn(w: World, id: string, clock: Clock) {
    Accepts(w.rows, id) && RowShows(w.rows[id], clock)
  }

  /**
   * Over every run: as long as a match has not been tombstoned, a sweep at `at`, or the sweep under
   * way when it comes to it, tombstones it if and only if more than the window has passed since the event that counts: its
   * registration, if it neither ended nor was flagged since; its end, if it was not flagged since;
   * its last flag, if it was not resolved since; its last resolve. A flag that nobody renews or
   * resolves therefore does not keep a match for ever, and an ended match goes like any other.
   */
  lemma ExpiresIff(now: real, before: seq<Step>, event: Step, later: seq<Step>, win: Windows, id: string, clock: Clock, at: real)
    requires Starts(Run(Start(now), before, win), event, id, clock)
    requires forall i :: 0 <= i < |later| ==> !Supersedes(later[i], id, clock)
    requires StaysLive(Do(Run(Start(now), before, win), event, win), later, win, id)
    requires at >= Run(Do(Run(Start(now), before, win), event, win), later, win).now
    ensures var w := Run(Do(Run(Start(now), before, win), event, win), later, win);
            var end := Run(w, SweepOne(id, at), win);
            var window := if clock.LastFlagged? then win.stale else win.retention;
            && id in end.rows && (end.rows[id].deleting.Some? <==> at > clock.at + window)
            && (w.sweep.Marking? && w.sweep.todo != [] && w.sweep.todo[0] == id ==>
                  && id in Do(w, MarkNext, win).rows
                  && (Do(w, MarkNext, win).rows[id].deleting.Some? <==> w.now > clock.at + window))
  {
    var w0 := Do(Run(Start(now), before, win), event, win);
    StartShows(Run(Start(now), before, win), event, win, id, clock);
    hide Do, Starts;
    RunShows(w0, later, win, id, clock);
    assert later[..|later|] == later;
    TombstonedIff(Run(w0, later, win), id, at, win);
    var w := Run(w0, later, win);
    if w.sweep.Marking? && w.sweep.todo != [] && w.sweep.todo[0] == id { MarksIff(w, win, id); }
  }

  lemma MarksIff(w: World, win: Windows, id: string)
    requires Accepts(w.rows, id) && w.sweep.Marking? && w.sweep.todo != [] && w.sweep.todo[0] == id
    ensures var w' := Do(w, MarkNext, win);
            id in w'.rows && (w'.rows[id].deleting.Some? <==> w.now > Deadline(w.rows[id], win))
  {
  }

  // ── What a flag reported stays ────────────────────────────────────────────

  lemma {:induction false} MergeGrows(stored: Found, reasons: seq<Reason>)
    ensures Below(View(stored), View(MergeAll(stored, reasons)))
    ensures forall signal :: signal in stored ==>
              signal in MergeAll(stored, reasons) && MergeAll(stored, reasons)[signal].slot == stored[signal].slot
  {
    if reasons != [] {
      MergeGrows(stored, reasons[..|reasons| - 1]);
    }
  }

  /** A flag's reasons are all in the row, none later or fewer than reported; slots stay those first seen. */
  ghost predicate Reported(row: Row, found: Found) {
    Below(View(found), View(row.reasons))
  }

  lemma FlagReports(rows: Rows, id: string, reasons: seq<Reason>, auto: bool, overBudget: bool, now: real, found: Found)
    requires Accepts(rows, id) && Lists(reasons, found)
    ensures var kept := Flag(rows, id, reasons, auto, overBudget, now)[id];
            View(kept.reasons) == Join(View(rows[id].reasons), View(found)) && Reported(kept, found)
  {
    MergeIsJoin(rows[id].reasons, reasons, found);
  }

  lemma StepKeepsReported(w: World, step: Step, win: Windows, id: string, found: Found)
    requires id in w.rows && Reported(w.rows[id], found)
    ensures var w' := Do(w, step, win); id in w'.rows ==> Reported(w'.rows[id], found)
  {
    if step.FlagMatch? && step.id == id { MergeGrows(w.rows[id].reasons, step.reasons); }
    hide IsBatch, MergeAll, Expired;
  }

  lemma {:induction false} RunKeepsReported(w: World, steps: seq<Step>, win: Windows, id: string, found: Found)
    requires id in w.rows && Reported(w.rows[id], found)
    requires forall i :: 0 <= i <= |steps| ==> id in Run(w, steps[..i], win).rows
    ensures id in Run(w, steps, win).rows && Reported(Run(w, steps, win).rows[id], found)
  {
    hide Do, Reported;
    if steps != [] {
      var front := steps[..|steps| - 1];
      assert forall i :: 0 <= i <= |front| ==> front[..i] == steps[..i];
      RunKeepsReported(w, front, win, id, found);
      StepKeepsReported(Run(w, front, win), steps[|steps| - 1], win, id, found);
      assert steps[..|steps|] == steps;
    }
  }

  /**
   * Over every run: whatever flags, sweeps and resolves follow, and whether or not the flag was
   * capped, as long as the match's row is there it has every signal the flag reported, with at least
   * its count and no later a first frame.
   */
  lemma FlagIsRecorded(now: real, before: seq<Step>, flag: Step, later: seq<Step>, win: Windows, found: Found)
    requires flag.FlagMatch? && Accepts(Run(Start(now), before, win).rows, flag.id) && Lists(flag.reasons, found)
    requires forall i :: 0 <= i <= |later| ==> flag.id in Run(Do(Run(Start(now), before, win), flag, win), later[..i], win).rows
    ensures var w := Run(Do(Run(Start(now), before, win), flag, win), later, win);
            flag.id in w.rows
            && forall signal :: signal in found ==>
                 && signal in w.rows[flag.id].reasons
                 && w.rows[flag.id].reasons[signal].count >= found[signal].count
                 && (found[signal].first.Some? ==>
                       w.rows[flag.id].reasons[signal].first.Some?
                       && w.rows[flag.id].reasons[signal].first.value <= found[signal].first.value)
  {
    hide Run, Do, Lists, Reported;
    var w0 := Run(Start(now), before, win);
    FlagStepReports(w0, flag, win, found);
    RunKeepsReported(Do(w0, flag, win), later, win, flag.id, found);
    ReportedShows(Run(Do(w0, flag, win), later, win).rows[flag.id], found);
  }

  lemma FlagStepReports(w: World, flag: Step, win: Windows, found: Found)
    requires flag.FlagMatch? && Accepts(w.rows, flag.id) && Lists(flag.reasons, found)
    ensures flag.id in Do(w, flag, win).rows && Reported(Do(w, flag, win).rows[flag.id], found)
  {
    FlagReports(w.rows, flag.id, flag.reasons, flag.auto, flag.overBudget, w.now, found);
    hide Lists, MergeAll, Reported, Join, IsBatch, Expired;
  }

  lemma ReportedShows(row: Row, found: Found)
    requires Reported(row, found)
    ensures forall signal :: signal in found ==>
              && signal in row.reasons
              && row.reasons[signal].count >= found[signal].count
              && (found[signal].first.Some? ==>
                    row.reasons[signal].first.Some? && row.reasons[signal].first.value <= found[signal].first.value)
  {
    forall signal | signal in found
      ensures && signal in row.reasons && row.reasons[signal].count >= found[signal].count
              && (found[signal].first.Some? ==>
                    row.reasons[signal].first.Some? && row.reasons[signal].first.value <= found[signal].first.value)
    {
      assert signal in View(found) && MarkBelow(View(found)[signal], View(row.reasons)[signal]);
    }
  }

  /** An automatic flag that finds the budget spent and the match not flagged yet. */
  predicate Caps(w: World, step: Step, id: string) {
    step.FlagMatch? && step.id == id && step.auto && step.overBudget && Accepts(w.rows, id) && w.rows[id].tier == Normal
  }

  lemma StepCaps(w: World, step: Step, win: Windows, id: string)
    requires id in w.rows && id in Do(w, step, win).rows
    ensures Do(w, step, win).rows[id].capped <==> w.rows[id].capped || Caps(w, step, id)
  {
    hide IsBatch, MergeAll, Expired;
  }

  /** Over every run: a row says its flag was capped if and only if some such flag came while it was there. */
  lemma {:induction false} CappedIff(w: World, steps: seq<Step>, win: Windows, id: string)
    requires forall i :: 0 <= i <= |steps| ==> id in Run(w, steps[..i], win).rows
    ensures id in w.rows && id in Run(w, steps, win).rows
    ensures Run(w, steps, win).rows[id].capped
            <==> w.rows[id].capped || exists i :: 0 <= i < |steps| && Caps(Run(w, steps[..i], win), steps[i], id)
  {
    hide Do, Caps;
    assert steps[..0] == [] && steps[..|steps|] == steps;
    assert Run(w, [], win) == w;
    if steps != [] {
      var n := |steps| - 1;
      var front := steps[..n];
      assert forall i :: 0 <= i <= n ==> front[..i] == steps[..i];
      CappedIff(w, front, win, id);
      StepCaps(Run(w, front, win), steps[n], win, id);
      if i :| 0 <= i < n && Caps(Run(w, front[..i], win), front[i], id) {
        assert Caps(Run(w, steps[..i], win), steps[i], id);
      }
      if i :| 0 <= i < |steps| && Caps(Run(w, steps[..i], win), steps[i], id) {
        assert i < n ==> Caps(Run(w, front[..i], win), front[i], id);
      }
    }
  }

  // ── A tombstoned match ────────────────────────────────────────────────────

  /** What is left of a match: nothing was added, flagged or touched since. */
  ghost predicate OnlyLess(w: World, w': World, id: string) {
    && (forall b :: b in w'.blobs && b.0 == id ==> b in w.blobs)
    && (forall o :: o in w'.others && o.1 == id ==> o in w.others)
    && (id in w'.rows ==>
          && id in w.rows && w'.rows[id].deleting == w.rows[id].deleting && w'.rows[id].tier == w.rows[id].tier
          && w'.rows[id].reasons == w.rows[id].reasons && w'.rows[id].touched == w.rows[id].touched)
  }

  lemma StepOnlyLess(w: World, step: Step, win: Windows, id: string)
    requires id in w.rows && w.rows[id].deleting.Some?
    ensures OnlyLess(w, Do(w, step, win), id)
  {
    hide IsBatch, MergeAll, Expired;
  }

  lemma OnlyLessAgain(w: World, w': World, w'': World, id: string)
    requires OnlyLess(w, w', id) && OnlyLess(w', w'', id)
    ensures OnlyLess(w, w'', id)
  {
  }

  /**
   * From its tombstone on, and over any run until its row goes, a match takes no upload and no flag:
   * its blobs and rows only get fewer, and the row keeps its tombstone, tier, reasons and time.
   */
  lemma {:induction false} TombstonedOnlyShrinks(w: World, steps: seq<Step>, win: Windows, id: string)
    requires id in w.rows && w.rows[id].deleting.Some?
    requires forall i :: 0 <= i < |steps| ==> id in Run(w, steps[..i], win).rows
    ensures OnlyLess(w, Run(w, steps, win), id)
  {
    if steps == [] {
    } else {
      hide Do, OnlyLess;
      var front := steps[..|steps| - 1];
      assert forall i :: 0 <= i < |front| ==> front[..i] == steps[..i];
      TombstonedOnlyShrinks(w, front, win, id);
      StillTombstoned(w, Run(w, front, win), id);
      StepOnlyLess(Run(w, front, win), steps[|steps| - 1], win, id);
      OnlyLessAgain(w, Run(w, front, win), Run(w, steps, win), id);
    }
  }

  lemma StillTombstoned(w: World, w': World, id: string)
    requires id in w.rows && w.rows[id].deleting.Some? && OnlyLess(w, w', id) && id in w'.rows
    ensures w'.rows[id].deleting.Some?
  {
  }
}
