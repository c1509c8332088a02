/**
 * Which matches are kept and how expired ones go (server/src/retention.py, the flagging half
 * of server/src/db.py): a tombstone first, then blobs, then all rows at once, with the sweep
 * interrupted anywhere and flags landing in between. Times are nondecreasing reals.
 */
module Retention {
  import opened Basics
  import opened Wrappers
  import opened Flags

  const BATCH: nat := 200

  datatype Tier = Normal | Flagged

  /** A match_retention row. */
  datatype Row = Row(
    tier: Tier,
    created: real,
    ended: Option<real>,
    resolved: Option<real>,
    touched: real,
    deleting: Option<real>,
    capped: bool,
    reasons: Found)

  // LOG_RETENTION_DAYS and FLAGGED_STALE_DAYS.
  datatype Windows = Windows(retention: real, stale: real)

  function Age(row: Row): real {
    if row.ended.Some? then row.ended.value else row.created
  }

  predicate Expired(row: Row, now: real, win: Windows) {
    || (row.tier == Normal && Age(row) < now - win.retention)
    || (row.tier == Flagged && row.resolved.None? && row.touched < now - win.stale)
    || (row.tier == Flagged && row.resolved.Some? && row.resolved.value < now - win.retention)
  }

  /** The time after which a row may be tombstoned, tier by tier. */
  function Deadline(row: Row, win: Windows): real {
    match row.tier
    case Normal => win.retention + (match row.ended case Some(end) => end case None => row.created)
    case Flagged => (match row.resolved case Some(end) => win.retention + end case None => win.stale + row.touched)
  }

  type Rows = map<string, Row>

  // The other tables deleted with a match; client_events is left out.
  datatype Table = Screenshots | DesyncEvents | LogChunks | SessionLogs | Metrics

  // ── Statements ────────────────────────────────────────────────────────────

  function Flag(rows: Rows, id: string, reasons: seq<Reason>, auto: bool, overBudget: bool, now: real): Rows {
    if id !in rows || rows[id].deleting.Some? then rows
    else
      var row := rows[id].(reasons := MergeAll(rows[id].reasons, reasons));
      if auto && row.tier != Flagged && overBudget then rows[id := row.(capped := true)]
      else rows[id := row.(tier := Flagged, touched := now)]
  }

  /** The tombstoning UPDATE, which checks expiry again. */
  function Tombstone(rows: Rows, id: string, now: real, win: Windows): Rows {
    if id in rows && rows[id].deleting.None? && Expired(rows[id], now, win)
    then rows[id := rows[id].(deleting := Some(now))]
    else rows
  }

  function Tombstones(rows: Rows): map<string, real> {
    map id | id in rows && rows[id].deleting.Some? :: rows[id].deleting.value
  }

  /** SELECT ... ORDER BY deleting_at LIMIT: oldest first, ties in any order. */
  ghost predicate IsBatch(t: map<string, real>, batch: set<string>) {
    && batch <= t.Keys
    && |batch| == (if |t| < BATCH then |t| else BATCH)
    && forall a, b :: a in batch && b in t && b !in batch ==> t[a] <= t[b]
  }

  // ── The sweep as a state machine ──────────────────────────────────────────

  // Where the sweep is between awaits: `blobsGone` once the head's blobs are deleted.
  datatype Sweep = Idle | Marking(todo: seq<string>) | Deleting(todo: seq<string>, blobsGone: bool)

  /** `known` is every match ever registered. A blob is a match id and a name. */
  datatype World = World(
    rows: Rows,
    others: set<(Table, string)>,
    blobs: set<(string, nat)>,
    now: real,
    sweep: Sweep,
    known: set<string>)

  datatype Step =
    | Tick(to: real)
    | Register(id: string)
    | Upload(id: string, table: Table)
    | UploadBlob(id: string, name: nat)
    | End(id: string)
    | Resolve(id: string)
    | FlagMatch(id: string, reasons: seq<Reason>, auto: bool, overBudget: bool)
    | SelectExpired(batch: seq<string>)
    | MarkNext
    | SelectTombstones(batch: seq<string>)
    | DeleteBlobs(removed: set<(string, nat)>, ok: bool)
    | DeleteRows(ok: bool)
    | Interrupt

  predicate Accepts(rows: Rows, id: string) {
    id in rows && rows[id].deleting.None?
  }

  function Advance(sweep: Sweep): Sweep {
    match sweep
    case Idle => Idle
    case Marking(todo) => if |todo| <= 1 then Idle else Marking(todo[1..])
    case Deleting(todo, _) => if |todo| <= 1 then Idle else Deleting(todo[1..], false)
  }

  function OtherBlobs(blobs: set<(string, nat)>, id: string): set<(string, nat)> {
    set b | b in blobs && b.0 != id
  }

  function OtherRows(others: set<(Table, string)>, id: string): set<(Table, string)> {
    set o | o in others && o.1 != id
  }

  predicate Distinct(s: seq<string>) {
    forall i, j :: 0 <= i < j < |s| ==> s[i] != s[j]
  }

  function Elements(s: seq<string>): set<string> {
    set x | x in s
  }

  /** One step; a step that is not possible changes nothing. Tombstoned matches get no new rows. */
  ghost function Do(w: World, step: Step, win: Windows): World {
    match step
    case Tick(to) => if to >= w.now then w.(now := to) else w
    case Register(id) =>
      if id in w.rows then w
      else w.(rows := w.rows[id := Row(Normal, w.now, None, None, w.now, None, false, map[])], known := w.known + {id})
    case Upload(id, table) => if Accepts(w.rows, id) then w.(others := w.others + {(table, id)}) else w
    case UploadBlob(id, name) => if Accepts(w.rows, id) then w.(blobs := w.blobs + {(id, name)}) else w
    case End(id) =>
      if id in w.rows && w.rows[id].ended.None? then w.(rows := w.rows[id := w.rows[id].(ended := Some(w.now))]) else w
    case Resolve(id) =>
      if id in w.rows then w.(rows := w.rows[id := w.rows[id].(resolved := Some(w.now))]) else w
    case FlagMatch(id, reasons, auto, overBudget) => w.(rows := Flag(w.rows, id, reasons, auto, overBudget, w.now))
    case SelectExpired(batch) =>
      if w.sweep.Idle? && batch != [] && |batch| <= BATCH
         && (forall id :: id in batch ==> Accepts(w.rows, id) && Expired(w.rows[id], w.now, win))
      then w.(sweep := Marking(batch)) else w
    case MarkNext =>
      if w.sweep.Marking? && w.sweep.todo != []
      then w.(rows := Tombstone(w.rows, w.sweep.todo[0], w.now, win), sweep := Advance(w.sweep)) else w
    case SelectTombstones(batch) =>
      if w.sweep.Idle? && batch != [] && Distinct(batch) && IsBatch(Tombstones(w.rows), Elements(batch))
      then w.(sweep := Deleting(batch, false)) else w
    case DeleteBlobs(removed, ok) =>
      if w.sweep.Deleting? && w.sweep.todo != [] && !w.sweep.blobsGone && (forall b :: b in removed ==> b.0 == w.sweep.todo[0])
      then
        if ok then w.(blobs := OtherBlobs(w.blobs, w.sweep.todo[0]), sweep := w.sweep.(blobsGone := true))
        else w.(blobs := w.blobs - removed, sweep := Advance(w.sweep))
      else w
    case DeleteRows(ok) =>
      if w.sweep.Deleting? && w.sweep.todo != [] && w.sweep.blobsGone
      then
        if ok then w.(rows := w.rows - {w.sweep.todo[0]}, others := OtherRows(w.others, w.sweep.todo[0]), sweep := Advance(w.sweep))
        else w.(sweep := Advance(w.sweep))
      else w
    case Interrupt => w.(sweep := Idle)
  }

  ghost function Run(w: World, steps: seq<Step>, win: Windows): World {
    if steps == [] then w else Do(Run(w, steps[..|steps| - 1], win), steps[|steps| - 1], win)
  }

  function Start(now: real): World {
    World(map[], {}, {}, now, Idle, {})
  }

  predicate Gone(w: World, id: string) {
    && (forall b :: b in w.blobs ==> b.0 != id)
    && (forall o :: o in w.others ==> o.1 != id)
  }

  ghost predicate Inv(w: World) {
    && w.rows.Keys <= w.known
    && (forall id :: id in w.known && id !in w.rows ==> Gone(w, id))
    && (w.sweep.Deleting? ==>
          && Distinct(w.sweep.todo)
          && (forall id :: id in w.sweep.todo ==> id in w.rows && w.rows[id].deleting.Some?)
          && (w.sweep.blobsGone && w.sweep.todo != [] ==> forall b :: b in w.blobs ==> b.0 != w.sweep.todo[0]))
  }

  lemma DeletionKeepsInv(w: World, step: Step, win: Windows)
    requires Inv(w) && (step.DeleteBlobs? || step.DeleteRows?)
    ensures Inv(Do(w, step, win))
  {
    if w.sweep.Deleting? {
      assert forall id :: |w.sweep.todo| > 1 && id in w.sweep.todo[1..] ==> id in w.sweep.todo && id != w.sweep.todo[0];
    }
  }

  lemma StepKeepsInv(w: World, step: Step, win: Windows)
    requires Inv(w)
    ensures Inv(Do(w, step, win))
  {
    hide Expired, IsBatch, MergeAll;
    if step.DeleteBlobs? || step.DeleteRows? {
      DeletionKeepsInv(w, step, win);
    } else if step.SelectTombstones? && Do(w, step, win).sweep != w.sweep {
      BatchIsTombstoned(w.rows, step.batch);
    }
  }

  lemma BatchIsTombstoned(rows: Rows, batch: seq<string>)
    requires IsBatch(Tombstones(rows), Elements(batch))
    ensures forall id :: id in batch ==> id in rows && rows[id].deleting.Some?
  {
    forall id | id in batch ensures id in rows && rows[id].deleting.Some? {
      assert id in Elements(batch);
      assert id in Tombstones(rows);
    }
  }

  lemma {:induction false} RunKeepsInv(w: World, steps: seq<Step>, win: Windows)
    requires Inv(w)
    ensures Inv(Run(w, steps, win))
  {
    if steps != [] {
      RunKeepsInv(w, steps[..|steps| - 1], win);
      StepKeepsInv(Run(w, steps[..|steps| - 1], win), steps[|steps| - 1], win);
    }
  }

  /**
   * Wherever sweeps are interrupted, a match that was registered and has no retention row any
   * more has no blob and no row in any of the other tables either.
   */
  lemma DeletedLeavesNothing(now: real, steps: seq<Step>, win: Windows, id: string)
    requires id in Run(Start(now), steps, win).known && id !in Run(Start(now), steps, win).rows
    ensures Gone(Run(Start(now), steps, win), id)
  {
    RunKeepsInv(Start(now), steps, win);
  }

  /**
   * The two phases, step by step: a tombstone is only ever set on a row that is expired at that
   * moment; it is never taken back; and a row vanishes only tombstoned, after its blobs, in the
   * same step as the match's rows elsewhere.
   */
  lemma TwoPhases(now: real, steps: seq<Step>, win: Windows, step: Step, id: string)
    requires id in Run(Start(now), steps, win).rows
    ensures var w, w' := Run(Start(now), steps, win), Run(Start(now), steps + [step], win);
            && (id in w'.rows && w'.rows[id].deleting != w.rows[id].deleting ==>
                  w.rows[id].deleting.None? && w.now > Deadline(w.rows[id], win) && w'.rows[id].deleting == Some(w.now))
            && (id !in w'.rows ==> w.rows[id].deleting.Some? && (forall b :: b in w.blobs ==> b.0 != id) && Gone(w', id))
  {
    assert (steps + [step])[..|steps|] == steps;
    RunKeepsInv(Start(now), steps, win);
    var w := Run(Start(now), steps, win);
    hide IsBatch, MergeAll;
    assert w.sweep.Deleting? && w.sweep.todo != [] ==> w.sweep.todo[0] in w.sweep.todo;
  }

  // ── What a flag protects ──────────────────────────────────────────────────

  ghost predicate Protected(w: World, id: string, since: real) {
    && id in w.rows && w.rows[id].deleting.None?
    && w.rows[id].tier == Flagged && w.rows[id].resolved.None? && w.rows[id].touched >= since
  }

  lemma StepKeepsProtected(w: World, step: Step, win: Windows, id: string, since: real)
    requires Inv(w) && Protected(w, id, since) && step != Resolve(id) && since <= w.now
    requires Do(w, step, win).now <= since + win.stale
    ensures Protected(Do(w, step, win), id, since)
  {
    hide IsBatch, MergeAll;
    assert !Expired(w.rows[id], w.now, win);
    assert w.sweep.Deleting? && w.sweep.todo != [] ==> w.sweep.todo[0] in w.sweep.todo;
  }

  lemma StepClock(w: World, step: Step, win: Windows)
    ensures w.now <= Do(w, step, win).now
  {
    hide IsBatch, MergeAll, Expired;
  }

  lemma {:induction false} RunClock(w: World, steps: seq<Step>, win: Windows)
    ensures w.now <= Run(w, steps, win).now
  {
    if steps != [] {
      RunClock(w, steps[..|steps| - 1], win);
      StepClock(Run(w, steps[..|steps| - 1], win), steps[|steps| - 1], win);
    }
  }

  lemma {:induction false} ProtectedStays(w: World, later: seq<Step>, win: Windows, id: string, since: real)
    requires Inv(w) && Protected(w, id, since) && since <= w.now
    requires Resolve(id) !in later
    requires Run(w, later, win).now <= since + win.stale
    ensures Protected(Run(w, later, win), id, since)
  {
    if later != [] {
      var front, last := later[..|later| - 1], later[|later| - 1];
      StepClock(Run(w, front, win), last, win);
      RunClock(w, front, win);
      ProtectedStays(w, front, win, id, since);
      RunKeepsInv(w, front, win);
      assert last in later;
      StepKeepsProtected(Run(w, front, win), last, win, id, since);
    }
  }

  /**
   * A flag that is not capped, on a match that is neither resolved nor tombstoned, keeps the
   * match for the whole stale window, even if a sweep had already selected it, unless someone
   * resolves it.
   */
  lemma FlagProtects(now: real, before: seq<Step>, flag: Step, later: seq<Step>, win: Windows)
    requires flag.FlagMatch?
    requires var w := Run(Start(now), before, win);
             && Accepts(w.rows, flag.id) && w.rows[flag.id].resolved.None?
             && !(flag.auto && flag.overBudget && w.rows[flag.id].tier == Normal)
             && Run(Do(w, flag, win), later, win).now <= w.now + win.stale
    requires Resolve(flag.id) !in later
    ensures var w, end := Run(Start(now), before, win), Run(Do(Run(Start(now), before, win), flag, win), later, win);
            && Accepts(end.rows, flag.id) && end.rows[flag.id].tier == Flagged
  {
    var w := Run(Start(now), before, win);
    RunKeepsInv(Start(now), before, win);
    StepKeepsInv(w, flag, win);
    ProtectedStays(Do(w, flag, win), later, win, flag.id, w.now);
  }

  /** The three statements of a sweep at time `at` that tombstone one match. */
  function SweepOne(id: string, at: real): seq<Step> {
    [Interrupt, Tick(at), SelectExpired([id]), MarkNext]
  }

  lemma RunFour(w: World, a: Step, b: Step, c: Step, d: Step, win: Windows)
    ensures Run(w, [a, b, c, d], win) == Do(Do(Do(Do(w, a, win), b, win), c, win), d, win)
  {
    assert [a, b, c, d][..3] == [a, b, c] && [a, b, c][..2] == [a, b] && [a, b][..1] == [a] && [a][..0] == [];
    assert Run(w, [a], win) == Do(w, a, win);
    assert Run(w, [a, b], win) == Do(Run(w, [a], win), b, win);
    assert Run(w, [a, b, c], win) == Do(Run(w, [a, b], win), c, win);
  }

  /**
   * A sweep at a later time `at` with nothing else in between tombstones a match if and only if
   * `at` is past its deadline: by its tier, the retention window after the match ended (or began,
   * if it never ended) or was resolved, or the stale window after it was last flagged.
   */
  lemma TombstonedIff(w: World, id: string, at: real, win: Windows)
    requires Accepts(w.rows, id) && at >= w.now
    ensures var row, end := w.rows[id], Run(w, SweepOne(id, at), win);
            id in end.rows
            && (row.tier == Normal && row.ended.None? ==>
                  (end.rows[id].deleting.Some? <==> at > row.created + win.retention))
            && (row.tier == Normal && row.ended.Some? ==>
                  (end.rows[id].deleting.Some? <==> at > row.ended.value + win.retention))
            && (row.tier == Flagged && row.resolved.None? ==>
                  (end.rows[id].deleting.Some? <==> at > row.touched + win.stale))
            && (row.tier == Flagged && row.resolved.Some? ==>
                  (end.rows[id].deleting.Some? <==> at > row.resolved.value + win.retention))
  {
    RunFour(w, Interrupt, Tick(at), SelectExpired([id]), MarkNext, win);
    var w2 := w.(sweep := Idle, now := at);
    assert Do(Do(w, Interrupt, win), Tick(at), win) == w2;
    if Expired(w.rows[id], at, win) {
      assert Do(w2, SelectExpired([id]), win) == w2.(sweep := Marking([id]));
    } else {
      assert id in [id];
      assert Do(w2, SelectExpired([id]), win) == w2;
    }
  }

  /**
   * Where the promise "flagged matches are kept until resolved" stops: a flag does not clear an
   * earlier resolve, and a capped automatic flag keeps the normal tier, so such a match goes when
   * its normal window ends however recent the flag. Any other flag holds for the stale window.
   */
  lemma FlagHoldsIff(rows: Rows, id: string, reasons: seq<Reason>, auto: bool, overBudget: bool, now: real, win: Windows)
    requires Accepts(rows, id)
    ensures var row := rows[id];
            var kept := Flag(rows, id, reasons, auto, overBudget, now)[id];
            now + win.stale <= Deadline(kept, win)
            <==> if auto && overBudget && row.tier == Normal then Age(row) >= now + win.stale - win.retention
                 else row.resolved.None? || row.resolved.value >= now + win.stale - win.retention
  {
    hide MergeAll;
  }

  // ── Progress ──────────────────────────────────────────────────────────────

  predicate TombstonedAt(w: World, id: string, at: real) {
    id in w.rows && w.rows[id].deleting == Some(at)
  }

  /** A pass over a batch of tombstones ends without being interrupted. */
  ghost predicate Completes(w: World, step: Step, win: Windows) {
    w.sweep.Deleting? && !step.Interrupt? && Do(w, step, win).sweep.Idle?
  }

  ghost function Passes(w: World, steps: seq<Step>, win: Windows): nat {
    if steps == [] then 0
    else
      var front, last := steps[..|steps| - 1], steps[|steps| - 1];
      Passes(w, front, win) + (if Completes(Run(w, front, win), last, win) then 1 else 0)
  }

  /** If the step is a deletion that fails, the match is one of those that keep failing. */
  predicate FailsOnly(w: World, step: Step, stuck: set<string>) {
    ((step.DeleteBlobs? && !step.ok) || (step.DeleteRows? && !step.ok)) && w.sweep.Deleting? && w.sweep.todo != [] ==>
      w.sweep.todo[0] in stuck
  }

  ghost predicate OnlyStuckFail(w: World, steps: seq<Step>, stuck: set<string>, win: Windows) {
    forall i :: 0 <= i < |steps| ==> FailsOnly(Run(w, steps[..i], win), steps[i], stuck)
  }

  /** The matches that can be ahead: tombstoned no later than `at` and not stuck. */
  ghost function Ahead(w: World, stuck: set<string>, at: real): set<string> {
    set id | id in w.rows && id !in stuck && w.rows[id].deleting.Some? && w.rows[id].deleting.value <= at
  }

  /** The pass under way has still to come to a match that can be ahead. */
  ghost predicate Pending(w: World, stuck: set<string>, at: real) {
    w.sweep.Deleting? && exists x :: x in w.sweep.todo && x in Ahead(w, stuck, at)
  }

  /** How many more passes there can be without a match tombstoned at `at` being finished. */
  ghost function Need(w: World, stuck: set<string>, at: real): nat {
    |Ahead(w, stuck, at)| + (if w.sweep.Deleting? && !Pending(w, stuck, at) then 1 else 0)
  }

  /** Of an oldest-first batch some match that is not stuck is at least as old as any left out. */
  lemma BatchIsPending(w: World, batch: seq<string>, stuck: set<string>, id: string, at: real)
    requires IsBatch(Tombstones(w.rows), Elements(batch)) && |stuck| < BATCH
    requires TombstonedAt(w, id, at) && id !in stuck
    ensures exists x :: x in batch && x in Ahead(w, stuck, at)
  {
    var t, b := Tombstones(w.rows), Elements(batch);
    if id in batch {
      assert id in Ahead(w, stuck, at);
    } else {
      assert id in t && id !in b;
      assert |b| == BATCH by {
        if |t| <= |b| {
          assert |t| == |t.Keys|;
          SubsetSize(b, t.Keys);
        }
      }
      if b <= stuck { SubsetSize(b, stuck); }
      var x :| x in b && x !in stuck;
      assert x in batch && x in t && x in Ahead(w, stuck, at);
    }
  }

  /** What a step does to the tombstones: their times stay, and a new one gets the present time. */
  lemma StepTombstones(w: World, step: Step, win: Windows, x: string, at: real)
    requires Inv(w)
    ensures TombstonedAt(w, x, at) && x in Do(w, step, win).rows ==> TombstonedAt(Do(w, step, win), x, at)
    ensures TombstonedAt(Do(w, step, win), x, at) ==> TombstonedAt(w, x, at) || at == w.now
  {
    hide IsBatch, MergeAll, Expired, Gone;
  }

  lemma AheadShrinks(w: World, step: Step, win: Windows, stuck: set<string>, at: real)
    requires Inv(w) && at < w.now
    ensures Ahead(Do(w, step, win), stuck, at) <= Ahead(w, stuck, at)
  {
    var w' := Do(w, step, win);
    hide Do, Inv;
    forall x | x in Ahead(w', stuck, at) ensures x in Ahead(w, stuck, at) {
      StepTombstones(w, step, win, x, w'.rows[x].deleting.value);
    }
  }

  /** A row goes only as the head of the pass under way. */
  lemma StepRemoves(w: World, step: Step, win: Windows, x: string)
    requires x in w.rows && x !in Do(w, step, win).rows
    ensures step.DeleteRows? && w.sweep.Deleting? && w.sweep.todo != [] && x == w.sweep.todo[0]
    ensures Do(w, step, win).sweep == Advance(w.sweep)
  {
    hide IsBatch, MergeAll, Expired;
  }

  /** The pass under way goes on as it is, is interrupted, or leaves its head, finished or failed. */
  ghost predicate GoesOn(w: World, step: Step, w': World)
    requires w.sweep.Deleting?
  {
    || (w'.sweep.Deleting? && w'.sweep.todo == w.sweep.todo)
    || (step.Interrupt? && w'.sweep.Idle?)
    || (w.sweep.todo != [] && w'.sweep == Advance(w.sweep)
        && (w.sweep.todo[0] !in w'.rows || (step.DeleteBlobs? && !step.ok) || (step.DeleteRows? && !step.ok)))
  }

  lemma StepSweep(w: World, step: Step, win: Windows)
    ensures w.sweep.Deleting? ==> GoesOn(w, step, Do(w, step, win))
    ensures var w' := Do(w, step, win);
            !w.sweep.Deleting? && w'.sweep.Deleting? ==>
              step.SelectTombstones? && w'.rows == w.rows && IsBatch(Tombstones(w.rows), Elements(w'.sweep.todo))
  {
    hide IsBatch, MergeAll, Expired;
  }

  /** The pass leaves its head. */
  lemma AdvanceProgress(w: World, step: Step, win: Windows, stuck: set<string>, at: real)
    requires Inv(w) && at < w.now && w.sweep.Deleting? && w.sweep.todo != []
    requires Do(w, step, win).sweep == Advance(w.sweep)
    requires w.sweep.todo[0] !in Do(w, step, win).rows || w.sweep.todo[0] in stuck
    ensures (if Do(w, step, win).sweep.Idle? then 1 else 0) + Need(Do(w, step, win), stuck, at) <= Need(w, stuck, at)
  {
    var w', head := Do(w, step, win), w.sweep.todo[0];
    var ahead, ahead' := Ahead(w, stuck, at), Ahead(w', stuck, at);
    AheadShrinks(w, step, win, stuck, at);
    SubsetSize(ahead', ahead);
    if head in ahead {
      assert head !in ahead';
      SubsetSize(ahead', ahead);
    } else if Pending(w, stuck, at) {
      var x :| x in w.sweep.todo && x in ahead;
      if x !in w'.rows { StepRemoves(w, step, win, x); }
      StepTombstones(w, step, win, x, w.rows[x].deleting.value);
      assert x in w.sweep.todo[1..] && x in ahead';
    }
  }

  lemma StepProgress(w: World, step: Step, win: Windows, stuck: set<string>, id: string, at: real)
    requires Inv(w) && TombstonedAt(w, id, at) && at < w.now && id !in stuck && |stuck| < BATCH
    requires FailsOnly(w, step, stuck)
    ensures var w' := Do(w, step, win);
            id !in w'.rows || (TombstonedAt(w', id, at)
                               && (if Completes(w, step, win) then 1 else 0) + Need(w', stuck, at) <= Need(w, stuck, at))
  {
    var w' := Do(w, step, win);
    StepTombstones(w, step, win, id, at);
    StepSweep(w, step, win);
    AheadShrinks(w, step, win, stuck, at);
    SubsetSize(Ahead(w', stuck, at), Ahead(w, stuck, at));
    if !w.sweep.Deleting? {
      if w'.sweep.Deleting? { BatchIsPending(w, w'.sweep.todo, stuck, id, at); }
    } else if w'.sweep.Deleting? && w'.sweep.todo == w.sweep.todo {
      SamePending(w, step, win, stuck, at);
    } else if !step.Interrupt? {
      AdvanceProgress(w, step, win, stuck, at);
    }
    hide Do, Inv, IsBatch, Ahead;
  }

  lemma SamePending(w: World, step: Step, win: Windows, stuck: set<string>, at: real)
    requires Inv(w) && w.sweep.Deleting? && Do(w, step, win).sweep.Deleting?
    requires Do(w, step, win).sweep.todo == w.sweep.todo
    ensures Pending(w, stuck, at) ==> Pending(Do(w, step, win), stuck, at)
  {
    var w' := Do(w, step, win);
    if Pending(w, stuck, at) {
      var x :| x in w.sweep.todo && x in Ahead(w, stuck, at);
      if x !in w'.rows { StepRemoves(w, step, win, x); }
      StepTombstones(w, step, win, x, w.rows[x].deleting.value);
      assert x in Ahead(w', stuck, at);
    }
  }

  lemma {:induction false} RunProgress(w: World, steps: seq<Step>, win: Windows, stuck: set<string>, id: string, at: real)
    requires Inv(w) && TombstonedAt(w, id, at) && at < w.now && id !in stuck && |stuck| < BATCH
    requires OnlyStuckFail(w, steps, stuck, win)
    ensures (exists i :: 0 <= i <= |steps| && id !in Run(w, steps[..i], win).rows)
            || (TombstonedAt(Run(w, steps, win), id, at)
                && Passes(w, steps, win) + Need(Run(w, steps, win), stuck, at) <= Need(w, stuck, at))
  {
    hide Do, Need, Completes, FailsOnly, Inv;
    if steps != [] {
      var front, last := steps[..|steps| - 1], steps[|steps| - 1];
      assert forall i :: 0 <= i <= |front| ==> front[..i] == steps[..i];
      assert OnlyStuckFail(w, front, stuck, win);
      RunProgress(w, front, win, stuck, id, at);
      if exists i :: 0 <= i <= |front| && id !in Run(w, front[..i], win).rows {
        var i :| 0 <= i <= |front| && id !in Run(w, front[..i], win).rows;
        assert id !in Run(w, steps[..i], win).rows;
      } else {
        RunKeepsInv(w, front, win);
        RunClock(w, front, win);
        assert FailsOnly(Run(w, steps[..|front|], win), steps[|front|], stuck);
        StepProgress(Run(w, front, win), last, win, stuck, id, at);
        assert steps[..|steps|] == steps;
      }
    }
  }

  /**
   * Progress: from any reachable state in which a match was tombstoned before now, over any run
   * in which fewer than 200 matches ever fail, it and they not among them, whatever else
   * happens and however many sweeps are interrupted in between: once as many passes have ended as
   * there are matches ahead of it, itself included, and one more if a pass is under way, the
   * match has been finished.
   */
  lemma EveryOtherMatchFinishes(now: real, before: seq<Step>, later: seq<Step>, win: Windows, stuck: set<string>, id: string)
    requires var w := Run(Start(now), before, win);
             && id in w.rows && w.rows[id].deleting.Some? && w.rows[id].deleting.value < w.now
             && id !in stuck && |stuck| < 200 && OnlyStuckFail(w, later, stuck, win)
             && Passes(w, later, win) >= |Ahead(w, stuck, w.rows[id].deleting.value)| + (if w.sweep.Deleting? then 1 else 0)
    ensures exists i :: 0 <= i <= |later| && id !in Run(Run(Start(now), before, win), later[..i], win).rows
  {
    var w := Run(Start(now), before, win);
    var at := w.rows[id].deleting.value;
    RunKeepsInv(Start(now), before, win);
    RunProgress(w, later, win, stuck, id, at);
    var end := Run(w, later, win);
    hide Run, Passes, OnlyStuckFail;
    if TombstonedAt(end, id, at) {
      assert id in Ahead(end, stuck, at);
      SubsetSize({id}, Ahead(end, stuck, at));
    }
  }

  // ── An uninterrupted pass ─────────────────────────────────────────────────

  /** The statements that delete a batch one by one; those in `failing` fail at their blobs. */
  function DeleteEach(todo: seq<string>, failing: set<string>): seq<Step> {
    if todo == [] then []
    else DeleteEach(todo[..|todo| - 1], failing)
         + (if todo[|todo| - 1] in failing then [DeleteBlobs({}, false)] else [DeleteBlobs({}, true), DeleteRows(true)])
  }

  function Rest(todo: seq<string>, k: nat): Sweep
    requires k <= |todo|
  {
    if k == |todo| then Idle else Deleting(todo[k..], false)
  }

  lemma {:induction false} RunAppend(w: World, a: seq<Step>, b: seq<Step>, win: Windows)
    ensures Run(w, a + b, win) == Run(Run(w, a, win), b, win)
    decreases |b|
  {
    if b == [] {
      assert a + b == a;
    } else {
      hide Do;
      RunAppend(w, a, b[..|b| - 1], win);
      assert (a + b)[..|a + b| - 1] == a + b[..|b| - 1];
      assert (a + b)[|a + b| - 1] == b[|b| - 1];
    }
  }

  lemma DeleteOne(w: World, todo: seq<string>, k: nat, failing: set<string>, win: Windows)
    requires k < |todo| && w.sweep == Rest(todo, k)
    ensures var w' := Run(w, if todo[k] in failing then [DeleteBlobs({}, false)] else [DeleteBlobs({}, true), DeleteRows(true)], win);
            && w'.sweep == Rest(todo, k + 1)
            && w'.rows == (if todo[k] in failing then w.rows else w.rows - {todo[k]})
  {
    assert [DeleteBlobs({}, true), DeleteRows(true)][..1] == [DeleteBlobs({}, true)];
    assert [DeleteBlobs({}, true)][..0] == [] && [DeleteBlobs({}, false)][..0] == [];
    assert Run(w, [DeleteBlobs({}, true)], win) == Do(w, DeleteBlobs({}, true), win);
  }

  lemma DeleteEachMore(todo: seq<string>, k: nat, failing: set<string>)
    requires k < |todo|
    ensures DeleteEach(todo[..k + 1], failing)
            == DeleteEach(todo[..k], failing)
               + (if todo[k] in failing then [DeleteBlobs({}, false)] else [DeleteBlobs({}, true), DeleteRows(true)])
    ensures Elements(todo[..k + 1]) == Elements(todo[..k]) + {todo[k]}
  {
    assert todo[..k + 1][..k] == todo[..k];
    assert todo[..k + 1] == todo[..k] + [todo[k]];
  }

  lemma NothingDeleted(w: World, failing: set<string>, win: Windows)
    ensures Run(w, DeleteEach([], failing), win) == w && w.rows == w.rows - (Elements([]) - failing)
  {
    assert Elements([]) == {};
  }

  lemma {:induction false} DeleteSome(w: World, todo: seq<string>, k: nat, failing: set<string>, win: Windows)
    requires k <= |todo| && w.sweep == Rest(todo, 0)
    ensures var w' := Run(w, DeleteEach(todo[..k], failing), win);
            w'.sweep == Rest(todo, k) && w'.rows == w.rows - (Elements(todo[..k]) - failing)
  {
    hide Run, DeleteEach, Elements;
    if k == 0 {
      assert todo[..0] == [];
      NothingDeleted(w, failing, win);
    } else {
      DeleteSome(w, todo, k - 1, failing, win);
      var step := if todo[k - 1] in failing then [DeleteBlobs({}, false)] else [DeleteBlobs({}, true), DeleteRows(true)];
      DeleteEachMore(todo, k - 1, failing);
      RunAppend(w, DeleteEach(todo[..k - 1], failing), step, win);
      DeleteOne(Run(w, DeleteEach(todo[..k - 1], failing), win), todo, k - 1, failing, win);
    }
  }

  /** finish_deletes, uninterrupted, as steps of the sweep: the rows go as Database.FinishDeletes says. */
  lemma FinishIsRun(w: World, batch: seq<string>, failing: set<string>, win: Windows)
    requires w.sweep.Idle? && batch != [] && Distinct(batch) && IsBatch(Tombstones(w.rows), Elements(batch))
    ensures var w' := Run(w, [SelectTombstones(batch)] + DeleteEach(batch, failing), win);
            w'.sweep.Idle? && w'.rows == w.rows - (Elements(batch) - failing)
  {
    RunAppend(w, [SelectTombstones(batch)], DeleteEach(batch, failing), win);
    var w1 := Run(w, [SelectTombstones(batch)], win);
    assert [SelectTombstones(batch)][..0] == [];
    assert w1 == Do(w, SelectTombstones(batch), win);
    assert batch[0..] == batch && batch[..|batch|] == batch;
    DeleteSome(w1, batch, |batch|, failing, win);
  }

  // ── The stored rows ───────────────────────────────────────────────────────

  class Database {
    var rows: Rows
    var others: set<(Table, string)>
    var blobs: set<(string, nat)>

    constructor ()
      ensures rows == map[] && others == {} && blobs == {}
    {
      rows, others, blobs := map[], {}, {};
    }

    method FlagMatchLocked(id: string, reasons: seq<Reason>, auto: bool, flaggedBytes: nat, budget: nat, now: real)
      modifies this`rows
      ensures rows == Flag(old(rows), id, reasons, auto, flaggedBytes > budget, now)
    {
      if id !in rows || rows[id].deleting.Some? {
        return;
      }
      var merged := MergeReasons(rows[id].reasons, reasons);
      if auto && rows[id].tier != Flagged && flaggedBytes > budget {
        rows := rows[id := rows[id].(reasons := merged, capped := true)];
        return;
      }
      rows := rows[id := rows[id].(tier := Flagged, reasons := merged, touched := now)];
    }

    /** Step 1 of deletion over a selection: each UPDATE checks expiry again, by its own clock. */
    method MarkExpired(selected: seq<string>, clock: nat -> real, win: Windows) returns (marked: seq<string>)
      requires Distinct(selected)
      modifies this`rows
      ensures rows.Keys == old(rows).Keys
      ensures forall id :: id in rows && id !in selected ==> rows[id] == old(rows)[id]
      ensures forall i :: 0 <= i < |selected| && selected[i] in rows ==>
                rows[selected[i]]
                == if selected[i] in marked then old(rows)[selected[i]].(deleting := Some(clock(i)))
                   else old(rows)[selected[i]]
      ensures forall i :: 0 <= i < |selected| ==>
                (selected[i] in marked
                 <==> Accepts(old(rows), selected[i]) && clock(i) > Deadline(old(rows)[selected[i]], win))
      ensures forall id :: id in marked ==> id in selected
    {
      marked := [];
      for i := 0 to |selected|
        invariant rows.Keys == old(rows).Keys
        invariant forall id :: id in rows && id !in selected[..i] ==> rows[id] == old(rows)[id]
        invariant forall j :: 0 <= j < i && selected[j] in rows ==>
                    rows[selected[j]]
                    == if selected[j] in marked then old(rows)[selected[j]].(deleting := Some(clock(j)))
                       else old(rows)[selected[j]]
        invariant forall j :: 0 <= j < i ==>
                    (selected[j] in marked
                     <==> Accepts(old(rows), selected[j]) && clock(j) > Deadline(old(rows)[selected[j]], win))
        invariant forall id :: id in marked ==> id in selected[..i]
      {
        var id := selected[i];
        assert selected[..i + 1] == selected[..i] + [id];
        assert id !in selected[..i];
        if id in rows && rows[id].deleting.None? && Expired(rows[id], clock(i), win) {
          rows := rows[id := rows[id].(deleting := Some(clock(i)))];
          marked := marked + [id];
        }
      }
      assert selected[..|selected|] == selected;
    }

    /** The tombstoned match to delete first, of those not taken yet. */
    method Oldest(rest: set<string>) returns (id: string)
      requires rest <= Tombstones(rows).Keys && rest != {}
      ensures id in rest && forall x :: x in rest ==> Tombstones(rows)[id] <= Tombstones(rows)[x]
    {
      var t := Tombstones(rows);
      id :| id in rest;
      var todo := rest - {id};
      while todo != {}
        invariant id in rest && todo <= rest
        invariant forall x :: x in rest && x !in todo ==> t[id] <= t[x]
        decreases |todo|
      {
        var x :| x in todo;
        if t[x] < t[id] { id := x; }
        todo := todo - {x};
      }
    }

    /** SELECT ... ORDER BY deleting_at LIMIT. */
    method SelectTombstoned() returns (batch: seq<string>)
      ensures Distinct(batch) && IsBatch(Tombstones(rows), Elements(batch))
      ensures |batch| == |Elements(batch)| == (if |Tombstones(rows)| < 200 then |Tombstones(rows)| else 200)
    {
      var t := Tombstones(rows);
      batch := [];
      var rest := t.Keys;
      assert |t| == |t.Keys|;
      while |batch| < BATCH && rest != {}
        invariant rest <= t.Keys && Elements(batch) == t.Keys - rest && Distinct(batch)
        invariant |batch| == |Elements(batch)| <= BATCH
        invariant forall a :: a in batch ==> a in t
        invariant forall a, b :: a in batch && b in rest ==> t[a] <= t[b]
        decreases |rest|
      {
        var id := Oldest(rest);
        assert id !in Elements(batch);
        assert Elements(batch + [id]) == Elements(batch) + {id};
        batch := batch + [id];
        rest := rest - {id};
      }
      SubsetSize(Elements(batch), t.Keys);
    }

    /**
     * Step 2, uninterrupted, over the oldest tombstones. The matches in `failing` raise, their
     * deletion having got as far as the blobs in `lost`.
     */
    method FinishDeletes(failing: set<string>, lost: set<(string, nat)>) returns (finished: nat)
      modifies this
      ensures exists batch :: Distinct(batch) && IsBatch(Tombstones(old(rows)), Elements(batch))
                && Finished(batch, failing, old(rows), old(others), old(blobs), rows, others, blobs)
                && finished == |Elements(batch) - failing|
    {
      var batch := SelectTombstoned();
      finished := DeleteBatch(batch, failing, lost);
    }

    method DeleteBatch(batch: seq<string>, failing: set<string>, lost: set<(string, nat)>) returns (finished: nat)
      requires Distinct(batch)
      modifies this
      ensures Finished(batch, failing, old(rows), old(others), old(blobs), rows, others, blobs)
      ensures finished == |Elements(batch) - failing|
    {
      hide Finished, OtherBlobs, OtherRows;
      finished := 0;
      NothingFinished(failing, rows, others, blobs);
      for i := 0 to |batch|
        invariant Finished(batch[..i], failing, old(rows), old(others), old(blobs), rows, others, blobs)
        invariant finished == |Elements(batch[..i]) - failing|
      {
        var id := batch[i];
        OneMore(batch, i, failing);
        FinishedOne(batch, i, failing, old(rows), old(others), old(blobs), rows, others, blobs, lost);
        if id in failing {
          blobs := OtherBlobs(blobs, id) + (blobs - lost);
          continue;
        }
        blobs := OtherBlobs(blobs, id);
        rows := rows - {id};
        others := OtherRows(others, id);
        finished := finished + 1;
      }
      assert batch[..|batch|] == batch;
    }
  }

  lemma NothingFinished(failing: set<string>, rows: Rows, others: set<(Table, string)>, blobs: set<(string, nat)>)
    ensures Finished([], failing, rows, others, blobs, rows, others, blobs) && |Elements([]) - failing| == 0
  {
    assert Elements([]) - failing == {};
  }

  lemma OneMore(batch: seq<string>, i: nat, failing: set<string>)
    requires i < |batch| && Distinct(batch)
    ensures |Elements(batch[..i + 1]) - failing|
            == |Elements(batch[..i]) - failing| + (if batch[i] in failing then 0 else 1)
  {
    var before, id := Elements(batch[..i]), batch[i];
    assert id !in before && Elements(batch[..i + 1]) == before + {id};
    assert (before + {id}) - failing == if id in failing then before - failing else (before - failing) + {id};
  }

  lemma FinishedOne(batch: seq<string>, i: nat, failing: set<string>,
                    rows0: Rows, others0: set<(Table, string)>, blobs0: set<(string, nat)>,
                    rows: Rows, others: set<(Table, string)>, blobs: set<(string, nat)>, lost: set<(string, nat)>)
    requires i < |batch| && Distinct(batch)
    requires Finished(batch[..i], failing, rows0, others0, blobs0, rows, others, blobs)
    ensures if batch[i] in failing
            then Finished(batch[..i + 1], failing, rows0, others0, blobs0, rows, others, OtherBlobs(blobs, batch[i]) + (blobs - lost))
            else Finished(batch[..i + 1], failing, rows0, others0, blobs0,
                          rows - {batch[i]}, OtherRows(others, batch[i]), OtherBlobs(blobs, batch[i]))
  {
    assert Elements(batch[..i + 1]) == Elements(batch[..i]) + {batch[i]};
    hide Elements, Distinct;
  }

  /** The tables after a batch: what does not fail is gone, and of the others only blobs can be. */
  ghost predicate Finished(batch: seq<string>, failing: set<string>,
                           rows: Rows, others: set<(Table, string)>, blobs: set<(string, nat)>,
                           rows': Rows, others': set<(Table, string)>, blobs': set<(string, nat)>)
  {
    && rows' == rows - (Elements(batch) - failing)
    && others' == (set o | o in others && o.1 !in Elements(batch) - failing)
    && (forall b :: b in blobs' ==> b in blobs && b.0 !in Elements(batch) - failing)
    && (forall b :: b in blobs && b !in blobs' ==> b.0 in Elements(batch))
  }
}
