/**
 * A run in which an acked entry is lost: a page going away sends its keepalive body with the newer
 * of two entries only, and the ack covers both.
 */
module SessionExample {
  import opened Wrappers
  import opened Chunks
  import opened SessionStore
  import AppendLock
  import opened SessionProtocol
  import opened SessionLoss

  const A := RingId(Log, "a")
  const E0 := Entry(IntSeq(0), 0, 0)
  const E1 := Entry(IntSeq(1), 0, 0)
  const BODY := Flush(Payload("a", [Dict(E1)]), Payload("", []))

  /** Two entries are logged, and the keepalive body leaves out the first. */
  const SENT: seq<Step> := [NewRing(A)] + [Push(A, 0, 0, 0)] + [Push(A, 0, 0, 0)] + [Send(Slice("a", 1, 2), NoSlice)]

  /** It arrives, gets the lock, and has read the row and the totals. */
  const READ: seq<Step> := SENT + [Deliver(0, BODY, 0, 0)] + [Serve(AppendLock.Acquire(0))] + [Serve(AppendLock.ReadRow(0))]
                           + [Serve(AppendLock.ReadLogTotal(0))] + [Serve(AppendLock.ReadAuditTotal(0))]

  /** Its batch runs, it leaves, and its answer arrives. */
  const ANSWERED: seq<Step> := READ + [Serve(AppendLock.Commit(0))] + [Serve(AppendLock.Release(0))]
                               + [Serve(AppendLock.Exit(0))] + [Receive(Receipt("a", "", Ack(1, -1)))]

  lemma Then(steps: seq<Step>, step: Step)
    ensures Run(steps + [step]) == Do(Run(steps), step)
  {
    assert (steps + [step])[..|steps|] == steps;
  }

  lemma FirstSteps()
    ensures Run([NewRing(A)]) == World(AppendLock.INITIAL, map[A := NEW_RING], {}, {})
    ensures Run([NewRing(A)] + [Push(A, 0, 0, 0)]).rings == map[A := Ring([E0], 0, -1, {}, {})]
    ensures Run([NewRing(A)] + [Push(A, 0, 0, 0)]) == World(AppendLock.INITIAL, map[A := Ring([E0], 0, -1, {}, {})], {}, {})
  {
    Then([], NewRing(A));
    assert [] + [NewRing(A)] == [NewRing(A)];
    assert Run([]) == INITIAL;
    Then([NewRing(A)], Push(A, 0, 0, 0));
    assert Push1(NEW_RING, 0, 0, 0) == Ring([E0], 0, -1, {}, {});
  }

  lemma BodySent()
    ensures Run(SENT) == World(AppendLock.INITIAL, map[A := Ring([E0, E1], 0, -1, {0}, {})], {BODY}, {})
  {
    FirstSteps();
    var two := [NewRing(A)] + [Push(A, 0, 0, 0)] + [Push(A, 0, 0, 0)];
    Then([NewRing(A)] + [Push(A, 0, 0, 0)], Push(A, 0, 0, 0));
    assert Push1(Ring([E0], 0, -1, {}, {}), 0, 0, 0) == Ring([E0, E1], 0, -1, {}, {});
    var w := World(AppendLock.INITIAL, map[A := Ring([E0, E1], 0, -1, {}, {})], {}, {});
    assert Run(two) == w;
    Then(two, Send(Slice("a", 1, 2), NoSlice));
    hide Run;
    assert Range(0, 1) == {0};
    assert SlicePayload(w, Log, Slice("a", 1, 2)) == BODY.log;
    var skipped := SkipBefore(w.rings, Log, Slice("a", 1, 2));
    assert {} + Range(0, 1) == {0};
    assert skipped.Keys == {A} && skipped[A] == Ring([E0, E1], 0, -1, {0}, {});
    assert skipped == map[A := Ring([E0, E1], 0, -1, {0}, {})];
  }

  const READY := AppendLock.Server(EMPTY_STORE, Some(0), 1, map[0 := 0], 1,
                                   map[0 := AppendLock.Task(BODY, 0, AppendLock.AllRead(FreshReads(EMPTY_STORE)))], [])

  lemma ServerReads()
    ensures var s1 := AppendLock.Do(AppendLock.INITIAL, AppendLock.Arrive(0, BODY));
            var s2 := AppendLock.Do(AppendLock.Do(s1, AppendLock.Acquire(0)), AppendLock.ReadRow(0));
            AppendLock.Do(AppendLock.Do(s2, AppendLock.ReadLogTotal(0)), AppendLock.ReadAuditTotal(0)) == READY
  {
  }

  lemma BodyDelivered()
    ensures Run(SENT + [Deliver(0, BODY, 0, 0)])
            == Run(SENT).(server := AppendLock.Do(AppendLock.INITIAL, AppendLock.Arrive(0, BODY)))
  {
    BodySent();
    Then(SENT, Deliver(0, BODY, 0, 0));
    hide Run;
    assert Trimmed(BODY.log, 0) == BODY.log && Trimmed(BODY.audit, 0) == BODY.audit;
    assert TrimmedSeqs(BODY.log, 0) == {} && TrimmedSeqs(BODY.audit, 0) == {};
    var rings := Run(SENT).rings;
    assert rings[A].givenUp + {} == rings[A].givenUp;
    assert GiveUp(rings, A, {}) == rings;
    assert RingId(Audit, "") !in rings;
  }

  /** A step of a waiting or reading task changes nothing but the server. */
  lemma ThenServe(steps: seq<Step>, step: AppendLock.Step)
    requires step.Acquire? || step.ReadRow? || step.ReadLogTotal? || step.ReadAuditTotal? || step.Release?
    ensures Run(steps + [Serve(step)]) == Run(steps).(server := AppendLock.Do(Run(steps).server, step))
  {
    Then(steps, Serve(step));
    hide Run, AppendLock.Do;
    assert Run(steps).receipts + {} == Run(steps).receipts;
  }

  lemma AboutToAppend()
    ensures Run(READ) == World(READY, map[A := Ring([E0, E1], 0, -1, {0}, {})], {BODY}, {})
  {
    BodySent();
    BodyDelivered();
    ServerReads();
    var d := SENT + [Deliver(0, BODY, 0, 0)];
    var l := d + [Serve(AppendLock.Acquire(0))];
    var r := l + [Serve(AppendLock.ReadRow(0))];
    var t := r + [Serve(AppendLock.ReadLogTotal(0))];
    ThenServe(d, AppendLock.Acquire(0));
    ThenServe(l, AppendLock.ReadRow(0));
    ThenServe(r, AppendLock.ReadLogTotal(0));
    ThenServe(t, AppendLock.ReadAuditTotal(0));
    hide Run, AppendLock.Do;
  }

  /** The position the append moves to. */
  lemma AppendAcksOne()
    ensures Append(EMPTY_STORE, BODY).1 == Ack(1, -1)
  {
    AppendMeaning(EMPTY_STORE, BODY, Log);
    AppendMeaning(EMPTY_STORE, BODY, Audit);
    hide Append, AppendPayload, AllEntries, Fresh;
    assert BODY.log.items[..0] == [];
    assert MaxSeq(BODY.log.items, -1) == 1;
  }

  lemma CommitLoses()
    ensures var w := Run(READ + [Serve(AppendLock.Commit(0))]);
            && w.rings.Keys == {A} && 0 in w.rings[A].lost && w.rings[A].pushed == [E0, E1] && w.rings[A].acked == -1
            && w.server.tasks == map[0 := AppendLock.Task(BODY, 0, AppendLock.Finished(Some(Ack(1, -1))))]
            && w.server.refcount == 1 && w.receipts == {}
  {
    AboutToAppend();
    AppendAcksOne();
    RunKeepsInv(READ);
    hide Append, NowLost, AppendLock.Do, AppendLock.Inv, Evidence;
    var w, w' := Run(READ), Run(READ + [Serve(AppendLock.Commit(0))]);
    Then(READ, Serve(AppendLock.Commit(0)));
    LosesIff(READ, 0, A, 0);
    CommitStep(w, w', 0);
    AppendLock.CommitEffect(w.server, 0);
    hide Run, Do, Inv;
    assert FirstSeq(BODY.log.items) == Some(1);
    assert 0 in Range(0, 1);
  }

  /** The first entry is acked, and in no chunk. */
  lemma AckedEntryLost()
    ensures var w := Run(ANSWERED);
            && A in w.rings && w.rings[A].acked == 1 && w.rings[A].pushed == [E0, E1] && 0 in w.rings[A].lost
            && !Inserted(w, A, E0)
  {
    CommitLoses();
    var c := READ + [Serve(AppendLock.Commit(0))];
    var r := c + [Serve(AppendLock.Release(0))];
    var e := r + [Serve(AppendLock.Exit(0))];
    ThenServe(c, AppendLock.Release(0));
    Then(r, Serve(AppendLock.Exit(0)));
    Then(e, Receive(Receipt("a", "", Ack(1, -1))));
    assert Receipt("a", "", Ack(1, -1)) in Run(e).receipts by { hide Run; }
    Acked(Run(e));
    hide Run, Do;
    NoAckedEntryLost(ANSWERED, A, 0);
  }

  lemma Acked(w: World)
    requires Receipt("a", "", Ack(1, -1)) in w.receipts && w.rings.Keys == {A} && w.rings[A].acked == -1
    ensures Do(w, Receive(Receipt("a", "", Ack(1, -1)))).rings == map[A := w.rings[A].(acked := 1)]
  {
  }
}
