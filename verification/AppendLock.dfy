/**
 * The reference-counted lock around appends to one key (server/src/db.py), interleaved at every
 * await: any number of flushes arrive, at most one runs and one waits, the rest are turned away.
 * The order in which waiting tasks get a free lock is left open.
 */
module AppendLock {
  import opened Wrappers
  import opened Chunks
  import opened SessionStore

  const MAX_PENDING: nat := 2

  // Where a task is between awaits.
  datatype Phase =
    | Waiting                               // counted, suspended on the lock
    | Locked                                // inside the locked body, nothing read yet
    | RowRead(row: Store)
    | LogRead(row: Store, logTotal: nat)
    | AllRead(seen: Reads)                  // about to run the batch
    | Finished(result: Option<Ack>)         // left the locked body; not yet released
    | Exiting(result: Option<Ack>)          // released; still holds its lock object

  datatype Task = Task(flush: Flush, lock: nat, phase: Phase)

  /**
   * `entry` is the key's lock in _append_locks, `refcount` its count (0 when absent),
   * `holders` maps a held lock object to its holder. Lock objects are numbered.
   * `committed` lists the flushes whose batch ran, in order.
   */
  datatype Server = Server(
    store: Store,
    entry: Option<nat>,
    refcount: nat,
    holders: map<nat, nat>,
    nextLock: nat,
    tasks: map<nat, Task>,
    committed: seq<Flush>)

  const INITIAL := Server(EMPTY_STORE, None, 0, map[], 0, map[], [])

  datatype Step =
    | Arrive(t: nat, flush: Flush)
    | Acquire(t: nat)
    | ReadRow(t: nat)
    | ReadLogTotal(t: nat)
    | ReadAuditTotal(t: nat)
    | Commit(t: nat)
    | Fail(t: nat)        // any query or the batch raises: nothing is stored
    | Release(t: nat)
    | Exit(t: nat)

  function SetPhase(s: Server, t: nat, phase: Phase): Server
    requires t in s.tasks
  {
    s.(tasks := s.tasks[t := s.tasks[t].(phase := phase)])
  }

  /** A flush asks for its place: turned away when one append runs and another waits. */
  function DoArrive(s: Server, t: nat, flush: Flush): Server {
    if s.refcount >= MAX_PENDING then s
    else
      var lock := if s.entry.Some? then s.entry.value else s.nextLock;
      s.(refcount := s.refcount + 1,
         entry := Some(lock),
         nextLock := if s.entry.Some? then s.nextLock else s.nextLock + 1,
         tasks := s.tasks[t := Task(flush, lock, Waiting)])
  }

  function DoRelease(s: Server, t: nat, result: Option<Ack>): Server
    requires t in s.tasks && s.refcount > 0
  {
    SetPhase(s.(refcount := s.refcount - 1, entry := if s.refcount == 1 then None else s.entry), t, Exiting(result))
  }

  predicate InBody(phase: Phase) {
    phase.Locked? || phase.RowRead? || phase.LogRead? || phase.AllRead?
  }

  /** One step; a step that is not possible in `s` changes nothing. */
  function Do(s: Server, step: Step): Server {
    if step.Arrive? then (if step.t in s.tasks then s else DoArrive(s, step.t, step.flush))
    else if step.t !in s.tasks then s
    else
      var task := s.tasks[step.t];
      match (step, task.phase) {
        case (Acquire(t), Waiting) =>
          if task.lock in s.holders then s
          else SetPhase(s.(holders := s.holders[task.lock := t]), t, Locked)
        case (ReadRow(t), Locked) => SetPhase(s, t, RowRead(s.store))
        case (ReadLogTotal(t), RowRead(row)) => SetPhase(s, t, LogRead(row, Total(s.store.log.stored)))
        case (ReadAuditTotal(t), LogRead(row, logTotal)) =>
          SetPhase(s, t, AllRead(Reads(row, logTotal, Total(s.store.audit.stored))))
        case (Commit(t), AllRead(seen)) =>
          var r := CommitBatch(s.store, seen, task.flush);
          SetPhase(s.(store := r.0, committed := s.committed + [task.flush]), t, Finished(Some(r.1)))
        case (Fail(t), _) => if InBody(task.phase) then SetPhase(s, t, Finished(None)) else s
        case (Release(t), Finished(result)) => if s.refcount > 0 then DoRelease(s, t, result) else s
        case (Exit(t), Exiting(result)) => s.(tasks := s.tasks - {t}, holders := s.holders - {task.lock})
        case _ => s
      }
  }

  /** The ack a task has got, once its batch ran. */
  function ResultOf(phase: Phase): Option<Ack> {
    if phase.Finished? || phase.Exiting? then phase.result else None
  }

  /** An arrival touches nothing but its own place. */
  lemma ArriveEffect(s: Server, t: nat, flush: Flush)
    ensures var s' := Do(s, Arrive(t, flush));
            && s'.store == s.store && s'.committed == s.committed
            && (forall u :: u in s'.tasks ==> (u in s.tasks && s'.tasks[u] == s.tasks[u])
                                              || (u == t && s'.tasks[u].flush == flush && s'.tasks[u].phase == Waiting))
  {
  }

  /** Every other step but a batch keeps the store, the flushes of the tasks and their acks. */
  lemma QuietEffect(s: Server, step: Step)
    requires !step.Arrive?
    requires !(step.Commit? && step.t in s.tasks && s.tasks[step.t].phase.AllRead?)
    ensures var s' := Do(s, step);
            && s'.store == s.store && s'.committed == s.committed
            && (forall u :: u in s'.tasks ==> u in s.tasks && s'.tasks[u].flush == s.tasks[u].flush
                                              && (ResultOf(s'.tasks[u].phase) == ResultOf(s.tasks[u].phase)
                                                  || ResultOf(s'.tasks[u].phase) == None))
  {
  }

  function Run(steps: seq<Step>): Server {
    if steps == [] then INITIAL else Do(Run(steps[..|steps| - 1]), steps[|steps| - 1])
  }

  // ── The invariant ─────────────────────────────────────────────────────────

  ghost function Counted(s: Server): set<nat> {
    set t | t in s.tasks && !s.tasks[t].phase.Exiting?
  }

  ghost predicate LocksOk(s: Server) {
    && (forall t :: t in s.tasks ==> s.tasks[t].lock < s.nextLock)
    && (s.entry.Some? ==> s.entry.value < s.nextLock)
    && (s.entry.Some? <==> s.refcount > 0)
    && (forall t :: t in Counted(s) ==> s.entry == Some(s.tasks[t].lock))
    && (forall t :: t in s.tasks && !s.tasks[t].phase.Waiting? ==>
          s.tasks[t].lock in s.holders && s.holders[s.tasks[t].lock] == t)
    && (forall l :: l in s.holders ==>
          s.holders[l] in s.tasks && s.tasks[s.holders[l]].lock == l && !s.tasks[s.holders[l]].phase.Waiting?)
  }

  ghost predicate CountOk(s: Server) {
    s.refcount == |Counted(s)| && s.refcount <= MAX_PENDING
  }

  /** Everything a task has read about the store is still true. */
  predicate ReadsOk(phase: Phase, store: Store) {
    match phase
    case RowRead(row) => row == store
    case LogRead(row, logTotal) => row == store && logTotal == Total(store.log.stored)
    case AllRead(seen) => seen == FreshReads(store)
    case _ => true
  }

  ghost predicate Inv(s: Server) {
    && LocksOk(s)
    && CountOk(s)
    && (forall t :: t in s.tasks ==> ReadsOk(s.tasks[t].phase, s.store))
    && s.store == AppendAll(EMPTY_STORE, s.committed)
  }

  /** Two tasks in the locked body are the same task. */
  lemma OneInBody(s: Server, t: nat, u: nat)
    requires LocksOk(s)
    requires t in s.tasks && u in s.tasks
    requires InBody(s.tasks[t].phase) && InBody(s.tasks[u].phase)
    ensures t == u
  {
    assert t in Counted(s) && u in Counted(s);
  }

  lemma CountedAfterSetPhase(s: Server, t: nat, phase: Phase)
    requires t in s.tasks && !phase.Exiting? && !s.tasks[t].phase.Exiting?
    ensures Counted(SetPhase(s, t, phase)) == Counted(s)
  {
  }

  lemma ArriveKeepsInv(s: Server, t: nat, flush: Flush)
    requires Inv(s) && t !in s.tasks
    ensures Inv(DoArrive(s, t, flush))
  {
    hide AppendAll;
    if s.refcount < MAX_PENDING {
      var s' := DoArrive(s, t, flush);
      assert Counted(s') == Counted(s) + {t};
      if s.entry.None? {
        assert Counted(s) == {};
      }
    }
  }

  lemma AcquireKeepsInv(s: Server, t: nat)
    requires Inv(s) && t in s.tasks && s.tasks[t].phase.Waiting? && s.tasks[t].lock !in s.holders
    ensures Inv(Do(s, Acquire(t)))
  {
    CountedAfterSetPhase(s, t, Locked);
    var s' := Do(s, Acquire(t));
    assert Counted(s') == Counted(s);
    assert forall l :: l in s'.holders ==> l in s.holders || l == s.tasks[t].lock;
    forall u | u in s'.tasks && !s'.tasks[u].phase.Waiting?
      ensures s'.tasks[u].lock in s'.holders && s'.holders[s'.tasks[u].lock] == u
    {
      if u != t { assert s'.tasks[u] == s.tasks[u]; }
    }
  }

  /** Moving on inside the body, or out of it, without touching the store. */
  lemma BodyKeepsInv(s: Server, t: nat, phase: Phase)
    requires Inv(s) && t in s.tasks && InBody(s.tasks[t].phase)
    requires !phase.Exiting? && !phase.Waiting? && ReadsOk(phase, s.store)
    ensures Inv(SetPhase(s, t, phase))
  {
    CountedAfterSetPhase(s, t, phase);
  }

  /** What the committing task read is true, so its batch is the append of its flush alone. */
  lemma CommitIsAppend(s: Server, t: nat)
    requires t in s.tasks && s.tasks[t].phase.AllRead? && ReadsOk(s.tasks[t].phase, s.store)
    ensures var r := Append(s.store, s.tasks[t].flush);
            Do(s, Commit(t)) == s.(store := r.0, committed := s.committed + [s.tasks[t].flush],
                                   tasks := s.tasks[t := Task(s.tasks[t].flush, s.tasks[t].lock, Finished(Some(r.1)))])
  {
  }

  lemma CommitKeepsInv(s: Server, t: nat)
    requires Inv(s) && t in s.tasks && s.tasks[t].phase.AllRead?
    ensures Inv(Do(s, Commit(t)))
  {
    hide CommitBatch, Append, FreshReads;
    CommitIsAppend(s, t);
    var s' := Do(s, Commit(t));
    assert Counted(s') == Counted(s);
    assert s'.committed[..|s'.committed| - 1] == s.committed;
    forall u | u in s'.tasks ensures ReadsOk(s'.tasks[u].phase, s'.store) {
      if u != t && InBody(s.tasks[u].phase) {
        OneInBody(s, t, u);
      }
    }
  }

  /** The batch of a task alone in the body is the append of its flush to the store as it is. */
  lemma CommitEffect(s: Server, t: nat)
    requires Inv(s) && t in s.tasks && s.tasks[t].phase.AllRead?
    ensures var s', r := Do(s, Commit(t)), Append(s.store, s.tasks[t].flush);
            && s'.store == r.0
            && s'.committed == s.committed + [s.tasks[t].flush]
            && s'.tasks == s.tasks[t := Task(s.tasks[t].flush, s.tasks[t].lock, Finished(Some(r.1)))]
            && s'.refcount == s.refcount
  {
    assert ReadsOk(s.tasks[t].phase, s.store);
    CommitIsAppend(s, t);
  }

  lemma ReleaseCount(s: Server, t: nat)
    requires CountOk(s) && t in s.tasks && s.tasks[t].phase.Finished?
    ensures s.refcount > 0 && CountOk(Do(s, Release(t)))
    ensures Counted(Do(s, Release(t))) == Counted(s) - {t}
  {
    assert t in Counted(s);
    assert s.refcount > 0;
    assert Counted(Do(s, Release(t))) == Counted(s) - {t};
  }

  lemma ReleaseKeepsInv(s: Server, t: nat)
    requires Inv(s) && t in s.tasks && s.tasks[t].phase.Finished?
    ensures s.refcount > 0 && Inv(Do(s, Release(t)))
  {
    hide AppendAll;
    ReleaseCount(s, t);
    var s' := Do(s, Release(t));
    if s.refcount == 1 {
      assert Counted(s') == {};
    }
    assert LocksOk(s');
  }

  lemma ExitKeepsLocks(s: Server, s': Server, t: nat)
    requires LocksOk(s) && t in s.tasks && s.tasks[t].phase.Exiting?
    requires s' == s.(tasks := s.tasks - {t}, holders := s.holders - {s.tasks[t].lock})
    ensures LocksOk(s') && Counted(s') == Counted(s)
  {
    forall u | u in s'.tasks && !s'.tasks[u].phase.Waiting?
      ensures s'.tasks[u].lock in s'.holders && s'.holders[s'.tasks[u].lock] == u
    {
      assert s.holders[s.tasks[u].lock] == u;
    }
    forall l | l in s'.holders
      ensures s'.holders[l] in s'.tasks && s'.tasks[s'.holders[l]].lock == l && !s'.tasks[s'.holders[l]].phase.Waiting?
    {
      assert s.tasks[s.holders[l]].lock == l;
    }
  }

  lemma ExitKeepsInv(s: Server, t: nat)
    requires Inv(s) && t in s.tasks && s.tasks[t].phase.Exiting?
    ensures Inv(Do(s, Exit(t)))
  {
    ExitKeepsLocks(s, Do(s, Exit(t)), t);
    hide AppendAll, LocksOk, Counted;
  }

  lemma DoKeepsInv(s: Server, step: Step)
    requires Inv(s)
    ensures Inv(Do(s, step))
  {
    if step.Arrive? {
      if step.t !in s.tasks { ArriveKeepsInv(s, step.t, step.flush); }
    } else if step.t in s.tasks {
      var t, task := step.t, s.tasks[step.t];
      match (step, task.phase) {
        case (Acquire(_), Waiting) => if task.lock !in s.holders { AcquireKeepsInv(s, t); }
        case (ReadRow(_), Locked) => BodyKeepsInv(s, t, RowRead(s.store));
        case (ReadLogTotal(_), RowRead(row)) => BodyKeepsInv(s, t, LogRead(row, Total(s.store.log.stored)));
        case (ReadAuditTotal(_), LogRead(row, n)) =>
          BodyKeepsInv(s, t, AllRead(Reads(row, n, Total(s.store.audit.stored))));
        case (Commit(_), AllRead(_)) => CommitKeepsInv(s, t);
        case (Fail(_), _) => if InBody(task.phase) { BodyKeepsInv(s, t, Finished(None)); }
        case (Release(_), Finished(_)) => ReleaseKeepsInv(s, t);
        case (Exit(_), Exiting(_)) => ExitKeepsInv(s, t);
        case _ =>
      }
    }
  }

  lemma {:induction false} RunKeepsInv(steps: seq<Step>)
    ensures Inv(Run(steps))
  {
    if steps == [] {
      assert Counted(INITIAL) == {};
    } else {
      RunKeepsInv(steps[..|steps| - 1]);
      DoKeepsInv(Run(steps[..|steps| - 1]), steps[|steps| - 1]);
    }
  }

  // ── What every interleaving guarantees ────────────────────────────────────

  ghost function WaitingTasks(s: Server): set<nat> {
    set t | t in s.tasks && s.tasks[t].phase.Waiting?
  }

  ghost function RunningTasks(s: Server): set<nat> {
    set t | t in s.tasks && (InBody(s.tasks[t].phase) || s.tasks[t].phase.Finished?)
  }

  lemma OneRunning(s: Server)
    requires LocksOk(s)
    ensures |RunningTasks(s)| <= 1
  {
    var running := RunningTasks(s);
    if running != {} {
      var t :| t in running;
      forall u | u in running ensures u == t {
        assert t in Counted(s) && u in Counted(s);
      }
      assert running == {t};
    }
  }

  lemma CountedSplits(s: Server)
    ensures |Counted(s)| == |RunningTasks(s)| + |WaitingTasks(s)|
  {
    assert Counted(s) == RunningTasks(s) + WaitingTasks(s);
    assert RunningTasks(s) !! WaitingTasks(s);
  }

  /**
   * At most one task is in the locked body; the count is the running plus the waiting tasks
   * and never exceeds 2; the lock has an entry exactly while the count is positive.
   */
  lemma MutualExclusion(steps: seq<Step>)
    ensures var s := Run(steps);
            && (forall t, u :: t in s.tasks && u in s.tasks && InBody(s.tasks[t].phase) && InBody(s.tasks[u].phase) ==> t == u)
            && |RunningTasks(s)| <= 1
            && s.refcount == |RunningTasks(s)| + |WaitingTasks(s)| <= 2
            && (s.entry.Some? <==> s.refcount > 0)
  {
    RunKeepsInv(steps);
    var s := Run(steps);
    OneRunning(s);
    CountedSplits(s);
    forall t, u | t in s.tasks && u in s.tasks && InBody(s.tasks[t].phase) && InBody(s.tasks[u].phase)
      ensures t == u
    {
      OneInBody(s, t, u);
    }
  }

  /** A flush is turned away exactly when two are pending, and then nothing changes. */
  lemma TurnedAwayIff(steps: seq<Step>, t: nat, flush: Flush)
    requires t !in Run(steps).tasks
    ensures var s, s' := Run(steps), Run(steps + [Arrive(t, flush)]);
            if |RunningTasks(s)| + |WaitingTasks(s)| == 2 then s' == s
            else t in s'.tasks && s'.tasks[t].phase == Waiting && s'.store == s.store
  {
    assert (steps + [Arrive(t, flush)])[..|steps|] == steps;
    MutualExclusion(steps);
  }

  /**
   * However the awaits interleave, the store is what the committed flushes make of it one
   * after the other, as if each append ran alone.
   */
  lemma InterleavingsAreSerial(steps: seq<Step>)
    ensures Run(steps).store == AppendAll(EMPTY_STORE, Run(steps).committed)
    ensures forall kind :: Capped(Run(steps).store, kind)
  {
    RunKeepsInv(steps);
    forall kind ensures Capped(Run(steps).store, kind) {
      CapIsOneShot(Run(steps).committed, kind);
    }
  }

  /** And each ack is the one its flush would have got running alone at its place in that order. */
  lemma AckIsSerial(steps: seq<Step>, t: nat)
    requires t in Run(steps).tasks && Run(steps).tasks[t].phase.AllRead?
    ensures var s, s' := Run(steps), Run(steps + [Commit(t)]);
            && s'.committed == s.committed + [s.tasks[t].flush]
            && s'.tasks[t].phase == Finished(Some(Append(AppendAll(EMPTY_STORE, s.committed), s.tasks[t].flush).1))
  {
    assert (steps + [Commit(t)])[..|steps|] == steps;
    RunKeepsInv(steps);
    CommitEffect(Run(steps), t);
  }

  /** An append that raises stores nothing and gives its place and its lock back. */
  lemma FailureGivesBack(steps: seq<Step>, t: nat)
    requires t in Run(steps).tasks && InBody(Run(steps).tasks[t].phase)
    ensures var s, s' := Run(steps), Run(steps + [Fail(t)] + [Release(t)] + [Exit(t)]);
            && s'.store == s.store && s'.committed == s.committed
            && t !in s'.tasks && s'.refcount == s.refcount - 1 && s.tasks[t].lock !in s'.holders
  {
    hide Run, Inv, Do, InBody;
    RunKeepsInv(steps);
    IsCounted(Run(steps), t);
    RunSnoc(steps, Fail(t));
    RunSnoc(steps + [Fail(t)], Release(t));
    RunSnoc(steps + [Fail(t)] + [Release(t)], Exit(t));
    GivesBack(Run(steps), t);
  }

  lemma RunSnoc(steps: seq<Step>, step: Step)
    ensures Run(steps + [step]) == Do(Run(steps), step)
  {
    assert (steps + [step])[..|steps|] == steps;
    hide Do;
  }

  lemma IsCounted(s: Server, t: nat)
    requires Inv(s) && t in s.tasks && InBody(s.tasks[t].phase)
    ensures s.refcount > 0
  {
    assert t in Counted(s);
    hide LocksOk;
  }

  lemma GivesBack(s: Server, t: nat)
    requires t in s.tasks && InBody(s.tasks[t].phase) && s.refcount > 0
    ensures var s' := Do(Do(Do(s, Fail(t)), Release(t)), Exit(t));
            && s'.store == s.store && s'.committed == s.committed
            && t !in s'.tasks && s'.refcount == s.refcount - 1 && s.tasks[t].lock !in s'.holders
  {
    var s1 := Do(s, Fail(t));
    assert s1 == SetPhase(s, t, Finished(None));
    var s2 := Do(s1, Release(t));
    assert s2 == DoRelease(s1, t, None);
    hide CommitBatch;
  }
}
