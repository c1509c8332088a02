/**
 * Exactly once and in order: what the stored log looks like while one ring's flushes are the
 * only ones of their kind, and how it fails when epochs interleave or entries are given up.
 */
module SessionOrder {
  import opened Chunks
  import opened SessionStore
  import AppendLock
  import opened SessionProtocol
  import opened SessionLoss

  /** `entries` are entries of `pushed` with strictly increasing seqs, none past `last`. */
  ghost predicate Ordered(entries: seq<Entry>, pushed: seq<Entry>, last: int) {
    && (forall i :: 0 <= i < |entries| ==> EntryAt(entries[i], pushed, last))
    && (forall i, j :: 0 <= i < j < |entries| ==> entries[i].seqNo.IntSeq? && entries[j].seqNo.IntSeq?
                                                  && entries[i].seqNo.value < entries[j].seqNo.value)
  }

  predicate EntryAt(e: Entry, pushed: seq<Entry>, last: int) {
    e.seqNo.IntSeq? && 0 <= e.seqNo.value < |pushed| && e.seqNo.value <= last && e == pushed[e.seqNo.value]
  }

  /** Deduping a block of a ring keeps its entries past the position, still in order. */
  lemma {:induction false} FreshOfBlock(items: seq<Item>, pushed: seq<Entry>, from: nat, position: int)
    requires Numbered(pushed) && |pushed| <= MAX_VALID_SEQ && from + |items| <= |pushed|
    requires forall i :: 0 <= i < |items| ==> items[i] == Dict(pushed[from + i])
    ensures Ordered(Fresh(items, position), pushed, MaxSeq(items, position))
    ensures forall i :: 0 <= i < |Fresh(items, position)| ==> position < Fresh(items, position)[i].seqNo.value < from + |items|
  {
    if items != [] {
      var front, e := items[..|items| - 1], items[|items| - 1].entry;
      FreshOfBlock(front, pushed, from, position);
      assert e == pushed[from + |front|] && e.seqNo == IntSeq(from + |front|);
      var f := Fresh(front, position);
      assert forall i :: 0 <= i < |f| ==> EntryAt(f[i], pushed, MaxSeq(front, position));
      assert MaxSeq(items, position) >= MaxSeq(front, position);
      var all := Fresh(items, position);
      forall i | 0 <= i < |all| ensures EntryAt(all[i], pushed, MaxSeq(items, position)) {
        if i < |f| { assert all[i] == f[i]; }
      }
    }
  }

  lemma OrderedAppend(a: seq<Entry>, b: seq<Entry>, pushed: seq<Entry>, last: int, last': int)
    requires Ordered(a, pushed, last) && Ordered(b, pushed, last') && last <= last'
    requires forall i :: 0 <= i < |b| ==> last < b[i].seqNo.value
    ensures Ordered(a + b, pushed, last')
  {
    forall i | 0 <= i < |a + b| ensures EntryAt((a + b)[i], pushed, last') {
      if i < |a| { assert EntryAt(a[i], pushed, last); }
    }
    assert forall i :: 0 <= i < |a| ==> EntryAt(a[i], pushed, last);
    assert forall i :: 0 <= i < |b| ==> EntryAt(b[i], pushed, last');
  }

  lemma OrderedGrows(a: seq<Entry>, pushed: seq<Entry>, pushed': seq<Entry>, last: int)
    requires Ordered(a, pushed, last) && pushed <= pushed'
    ensures Ordered(a, pushed', last)
  {
    forall i | 0 <= i < |a| ensures EntryAt(a[i], pushed', last) {
      assert EntryAt(a[i], pushed, last);
    }
  }

  // ── A ring's own chunks ───────────────────────────────────────────────────

  /** The chunks of one epoch, in order. */
  function Own(history: seq<Chunk>, epoch: string): seq<Chunk> {
    if history == [] then []
    else Own(history[..|history| - 1], epoch)
         + (if history[|history| - 1].origin == epoch then [history[|history| - 1]] else [])
  }

  lemma {:induction false} OwnConcat(a: seq<Chunk>, b: seq<Chunk>, epoch: string)
    ensures Own(a + b, epoch) == Own(a, epoch) + Own(b, epoch)
  {
    if b == [] {
      assert a + b == a;
    } else {
      var front, last := b[..|b| - 1], b[|b| - 1];
      OwnConcat(a, front, epoch);
      assert (a + b)[..|a + b| - 1] == a + front && (a + b)[|a + b| - 1] == last;
      var more := if last.origin == epoch then [last] else [];
      assert Own(a + b, epoch) == Own(a + front, epoch) + more && Own(b, epoch) == Own(front, epoch) + more;
      hide Own;
    }
  }

  lemma {:induction false} OwnAll(chunks: seq<Chunk>, origin: string, epoch: string)
    requires forall i :: 0 <= i < |chunks| ==> chunks[i].origin == origin
    ensures Own(chunks, epoch) == if origin == epoch then chunks else []
  {
    if chunks != [] { OwnAll(chunks[..|chunks| - 1], origin, epoch); }
  }

  lemma OwnSnoc(front: seq<Chunk>, last: Chunk, epoch: string)
    ensures AllEntries(Own(front + [last], epoch))
            == AllEntries(Own(front, epoch)) + (if last.origin == epoch then last.entries else [])
  {
    assert (front + [last])[..|front|] == front;
    var own := Own(front, epoch);
    if last.origin == epoch {
      assert (own + [last])[..|own|] == own;
    } else {
      assert own + [] == own && AllEntries(own) + [] == AllEntries(own);
    }
  }

  /** The entries inserted under an epoch are those its chunks hold. */
  lemma {:induction false} HeldIsOwn(history: seq<Chunk>, epoch: string, e: Entry)
    ensures Holds(history, epoch, e) <==> e in AllEntries(Own(history, epoch))
  {
    if history != [] {
      var front, last := history[..|history| - 1], history[|history| - 1];
      HeldIsOwn(front, epoch, e);
      hide Own, AllEntries, Holds;
      assert history == front + [last];
      OwnSnoc(front, last, epoch);
      HoldsFront(front, last, epoch, e);
    }
  }

  lemma HoldsFront(front: seq<Chunk>, last: Chunk, epoch: string, e: Entry)
    ensures Holds(front + [last], epoch, e) <==> Holds(front, epoch, e) || (last.origin == epoch && e in last.entries)
  {
    var all := front + [last];
    assert forall i :: 0 <= i < |front| ==> all[i] == front[i];
    assert all[|front|] == last;
  }

  function OwnEntries(w: World, id: RingId): seq<Entry> {
    AllEntries(Own(StreamOf(w.server.store, id.kind).history, id.epoch))
  }

  /** What an append adds to an epoch's own entries. */
  lemma OwnAfter(store: Store, flush: Flush, id: RingId)
    requires id.epoch != ""
    ensures var s, s', p := StreamOf(store, id.kind), StreamOf(Append(store, flush).0, id.kind), PayloadOf(flush, id.kind);
            AllEntries(Own(s'.history, id.epoch))
            == AllEntries(Own(s.history, id.epoch))
               + (if p.epoch == id.epoch then Fresh(p.items, Position(s, id.epoch)) else [])
  {
    var s, s', p := StreamOf(store, id.kind), StreamOf(Append(store, flush).0, id.kind), PayloadOf(flush, id.kind);
    AppendMeaning(store, flush, id.kind);
    hide Append, Fresh, MaxSeq;
    if Quiet(flush, id.kind) { return; }
    var kept := Fresh(p.items, Position(s, p.epoch));
    TailEntries(s.history, s'.history, kept, p.epoch);
    var more := s'.history[|s.history|..];
    OwnConcat(s.history, more, id.epoch);
    OwnAll(more, p.epoch, id.epoch);
    AllEntriesAppend(Own(s.history, id.epoch), Own(more, id.epoch));
    NoEntries();
  }

  lemma NoEntries()
    ensures AllEntries([]) == []
  {
  }

  // ── One epoch's appends in a row ──────────────────────────────────────────

  predicate Names(flush: Flush, id: RingId) {
    PayloadOf(flush, id.kind).epoch == id.epoch
  }

  /** An audit payload without an epoch leaves the audit stream alone. */
  predicate Quiet(flush: Flush, kind: Kind) {
    kind == Audit && PayloadOf(flush, kind).epoch == ""
  }

  /** No other epoch's append lies between two of this one's; any may come before or after. */
  ghost predicate Contiguous(flushes: seq<Flush>, id: RingId) {
    forall i, j, k :: 0 <= i < j < k < |flushes| && Names(flushes[i], id) && Names(flushes[k], id) ==>
      Names(flushes[j], id) || Quiet(flushes[j], id.kind)
  }

  lemma ContiguousFront(flushes: seq<Flush>, last: Flush, id: RingId)
    requires Contiguous(flushes + [last], id)
    ensures Contiguous(flushes, id)
  {
    var all := flushes + [last];
    assert forall i :: 0 <= i < |flushes| ==> all[i] == flushes[i];
  }

  /** If the row is not in an epoch that was named, another epoch's append came after. */
  lemma {:induction false} AfterItsLast(flushes: seq<Flush>, id: RingId, i: nat) returns (j: nat)
    requires i < |flushes| && Names(flushes[i], id) && id.epoch != ""
    requires StreamOf(AppendAll(EMPTY_STORE, flushes), id.kind).epoch != id.epoch
    ensures i < j < |flushes| && !Names(flushes[j], id) && !Quiet(flushes[j], id.kind)
  {
    hide Append, AppendAll;
    var front, last := flushes[..|flushes| - 1], flushes[|flushes| - 1];
    EpochAfterAll(flushes, id.kind);
    if Quiet(last, id.kind) {
      assert i < |front| && front[i] == flushes[i];
      j := AfterItsLast(front, id, i);
      assert front[j] == flushes[j];
    } else {
      j := |flushes| - 1;
    }
  }

  lemma EpochAfterAll(flushes: seq<Flush>, kind: Kind)
    requires flushes != []
    ensures var front, last := AppendAll(EMPTY_STORE, flushes[..|flushes| - 1]), flushes[|flushes| - 1];
            StreamOf(AppendAll(EMPTY_STORE, flushes), kind).epoch
            == if Quiet(last, kind) then StreamOf(front, kind).epoch else PayloadOf(last, kind).epoch
  {
    AppendMeaning(AppendAll(EMPTY_STORE, flushes[..|flushes| - 1]), flushes[|flushes| - 1], kind);
    hide Append, Fresh, MaxSeq, AllEntries;
  }

  lemma {:induction false} UnnamedOwnsNothing(flushes: seq<Flush>, id: RingId)
    requires forall i :: 0 <= i < |flushes| ==> !Names(flushes[i], id)
    requires id.epoch != ""
    ensures AllEntries(Own(StreamOf(AppendAll(EMPTY_STORE, flushes), id.kind).history, id.epoch)) == []
    ensures StreamOf(AppendAll(EMPTY_STORE, flushes), id.kind).epoch != id.epoch
  {
    if flushes != [] {
      var n := |flushes| - 1;
      UnnamedOwnsNothing(flushes[..n], id);
      OwnAfter(AppendAll(EMPTY_STORE, flushes[..n]), flushes[n], id);
      AppendMeaning(AppendAll(EMPTY_STORE, flushes[..n]), flushes[n], id.kind);
      hide Append, Fresh, MaxSeq, Own, AllEntries;
    }
  }

  lemma InBetween(flushes: seq<Flush>, last: Flush, id: RingId, i: nat, j: nat)
    requires Contiguous(flushes + [last], id) && Names(last, id) && i < j < |flushes| && Names(flushes[i], id)
    ensures Names(flushes[j], id) || Quiet(flushes[j], id.kind)
  {
    var all := flushes + [last];
    assert all[i] == flushes[i] && all[j] == flushes[j] && all[|flushes|] == last;
  }

  /** Once another epoch has come, a contiguous epoch that was named cannot be named again. */
  lemma NamedAnewOwnsNothing(flushes: seq<Flush>, last: Flush, id: RingId)
    requires Contiguous(flushes + [last], id) && Names(last, id) && id.epoch != ""
    requires StreamOf(AppendAll(EMPTY_STORE, flushes), id.kind).epoch != id.epoch
    ensures AllEntries(Own(StreamOf(AppendAll(EMPTY_STORE, flushes), id.kind).history, id.epoch)) == []
  {
    forall i | 0 <= i < |flushes| ensures !Names(flushes[i], id) {
      if Names(flushes[i], id) {
        var j := AfterItsLast(flushes, id, i);
        InBetween(flushes, last, id, i, j);
        assert false;
      }
    }
    UnnamedOwnsNothing(flushes, id);
  }

  function LastSeqOf(entries: seq<Entry>): int {
    if entries == [] || entries[|entries| - 1].seqNo.NoSeq? then -1 else entries[|entries| - 1].seqNo.value
  }

  /** While its appends are contiguous, a ring's own entries are in order, each once, and none is missing unlost. */
  ghost predicate OrderOk(w: World, id: RingId)
    requires id in w.rings
  {
    Contiguous(w.server.committed, id) && |w.rings[id].pushed| <= MAX_VALID_SEQ ==>
      var s, own, pushed := StreamOf(w.server.store, id.kind), OwnEntries(w, id), w.rings[id].pushed;
      && Ordered(own, pushed, if s.epoch == id.epoch then s.lastSeq else |pushed| - 1)
      && SafeUpTo(w, id, LastSeqOf(own), WasLost)
  }

  ghost predicate AllOrderOk(w: World) {
    forall id :: id in w.rings ==> OrderOk(w, id)
  }

  lemma LastOfOrdered(own: seq<Entry>, pushed: seq<Entry>, last: int)
    requires Ordered(own, pushed, last) && last >= -1
    ensures -1 <= LastSeqOf(own) <= last && LastSeqOf(own) < |pushed|
    ensures Ordered(own, pushed, LastSeqOf(own))
  {
    if own != [] {
      assert EntryAt(own[|own| - 1], pushed, last);
      forall i | 0 <= i < |own| ensures EntryAt(own[i], pushed, LastSeqOf(own)) {
        assert EntryAt(own[i], pushed, last);
      }
    }
  }

  lemma OrderedFurther(own: seq<Entry>, pushed: seq<Entry>, last: int, further: int)
    requires Ordered(own, pushed, last) && last <= further
    ensures Ordered(own, pushed, further)
  {
    forall i | 0 <= i < |own| ensures EntryAt(own[i], pushed, further) { assert EntryAt(own[i], pushed, last); }
  }

  /** The order after one append under the ring's epoch. */
  lemma CommitKeepsOrder(own: seq<Entry>, pushed: seq<Entry>, items: seq<Item>, from: nat, position: int)
    requires Ordered(own, pushed, position) && IsBlock(items, pushed, from) && Usable(pushed)
    ensures Ordered(own + Fresh(items, position), pushed, MaxSeq(items, position))
  {
    FreshOfBlock(items, pushed, from, position);
    MaxSeqIsMax(items, position);
    hide MaxSeq, Fresh;
    OrderedAppend(own, Fresh(items, position), pushed, position, MaxSeq(items, position));
  }

  lemma BoundedByPushed(own: seq<Entry>, pushed: seq<Entry>, last: int)
    requires Ordered(own, pushed, last)
    ensures Ordered(own, pushed, |pushed| - 1)
  {
    forall i | 0 <= i < |own| ensures EntryAt(own[i], pushed, |pushed| - 1) { assert EntryAt(own[i], pushed, last); }
  }

  lemma CommitOrdered(w: World, w': World, id: RingId, flush: Flush)
    requires Inv(w) && id in w.rings && OrderOk(w, id) && PayloadOk(w, id.kind, PayloadOf(flush, id.kind), WasLost)
    requires AppendedTo(w, w', flush) && w'.server.committed == w.server.committed + [flush]
    requires Contiguous(w'.server.committed, id) && |w.rings[id].pushed| <= MAX_VALID_SEQ
    ensures var s' := StreamOf(w'.server.store, id.kind);
            Ordered(OwnEntries(w', id), w.rings[id].pushed, if s'.epoch == id.epoch then s'.lastSeq else |w.rings[id].pushed| - 1)
    ensures Contiguous(w.server.committed, id)
  {
    hide Inv, Append, AppendedTo, Own, AllEntries, PayloadOk, Ordered, SafeUpTo, Contiguous, IsBlock, OrderOk;
    ContiguousFront(w.server.committed, flush, id);
    NonEmptyEpoch(w, id);
    StoreAfter(w, w', flush);
    if Names(flush, id) {
      NamedOrdered(w, id, flush);
    } else {
      OrderGives(w, id);
      OthersOrdered(w.server.store, flush, id, w.rings[id].pushed);
    }
  }

  lemma StoreAfter(w: World, w': World, flush: Flush)
    requires AppendedTo(w, w', flush)
    ensures w'.server.store == Append(w.server.store, flush).0
  {
  }

  lemma NamedOrdered(w: World, id: RingId, flush: Flush)
    requires Inv(w) && id in w.rings && OrderOk(w, id) && PayloadOk(w, id.kind, PayloadOf(flush, id.kind), WasLost)
    requires Contiguous(w.server.committed + [flush], id) && Contiguous(w.server.committed, id)
    requires |w.rings[id].pushed| <= MAX_VALID_SEQ && Names(flush, id) && id.epoch != ""
    ensures var s' := StreamOf(Append(w.server.store, flush).0, id.kind);
            s'.epoch == id.epoch && Ordered(AllEntries(Own(s'.history, id.epoch)), w.rings[id].pushed, s'.lastSeq)
  {
    OrderGives(w, id);
    hide Evidence, Append, Own, AllEntries, LostOk, AppendLock.Inv, PayloadOk, Ordered, SafeUpTo, Contiguous, IsBlock, Numbered;
    ServerIsSerial(w);
    if StreamOf(w.server.store, id.kind).epoch != id.epoch { NamedAnewOwnsNothing(w.server.committed, flush, id); }
    var from := BlockCarried(w, id, PayloadOf(flush, id.kind));
    OwnOrdered(w.server.store, flush, id, w.rings[id].pushed, from);
  }

  lemma NonEmptyEpoch(w: World, id: RingId)
    requires Inv(w) && id in w.rings
    ensures id.epoch != ""
  {
    assert RingOk(w, id, WasLost);
  }

  /** The ring's own append. */
  lemma OwnOrdered(store: Store, flush: Flush, id: RingId, pushed: seq<Entry>, from: nat)
    requires id.epoch != "" && Names(flush, id) && Usable(pushed) && IsBlock(PayloadOf(flush, id.kind).items, pushed, from)
    requires var s := StreamOf(store, id.kind);
             if s.epoch == id.epoch then Ordered(AllEntries(Own(s.history, id.epoch)), pushed, s.lastSeq)
             else AllEntries(Own(s.history, id.epoch)) == []
    ensures var s' := StreamOf(Append(store, flush).0, id.kind);
            s'.epoch == id.epoch && Ordered(AllEntries(Own(s'.history, id.epoch)), pushed, s'.lastSeq)
  {
    var s, p := StreamOf(store, id.kind), PayloadOf(flush, id.kind);
    OwnAfter(store, flush, id);
    AppendMeaning(store, flush, id.kind);
    hide Append, Own, AllEntries, MaxSeq, Fresh;
    CommitKeepsOrder(AllEntries(Own(s.history, id.epoch)), pushed, p.items, from, Position(s, id.epoch));
  }

  /** Somebody else's. */
  lemma OthersOrdered(store: Store, flush: Flush, id: RingId, pushed: seq<Entry>)
    requires id.epoch != "" && !Names(flush, id)
    requires var s := StreamOf(store, id.kind);
             Ordered(AllEntries(Own(s.history, id.epoch)), pushed, if s.epoch == id.epoch then s.lastSeq else |pushed| - 1)
    ensures var s' := StreamOf(Append(store, flush).0, id.kind);
            Ordered(AllEntries(Own(s'.history, id.epoch)), pushed, if s'.epoch == id.epoch then s'.lastSeq else |pushed| - 1)
  {
    var s := StreamOf(store, id.kind);
    var own := AllEntries(Own(s.history, id.epoch));
    OwnAfter(store, flush, id);
    AppendMeaning(store, flush, id.kind);
    hide Append, Own, AllEntries, MaxSeq, Fresh;
    assert own + [] == own;
    if s.epoch == id.epoch { BoundedByPushed(own, pushed, s.lastSeq); }
  }

  lemma ServerIsSerial(w: World)
    requires Inv(w)
    ensures w.server.store == AppendAll(EMPTY_STORE, w.server.committed)
  {
    hide Evidence, LostOk;
  }

  lemma CommitKeepsOrderOk(w: World, w': World, id: RingId, flush: Flush)
    requires Inv(w) && Inv(w') && id in w.rings && OrderOk(w, id)
    requires PayloadOk(w, id.kind, PayloadOf(flush, id.kind), WasLost) && Grows(w, w')
    requires AppendedTo(w, w', flush) && w'.server.committed == w.server.committed + [flush]
    ensures OrderOk(w', id)
  {
    hide Inv, Grows, PayloadOk, Append, Contiguous, Ordered, SafeUpTo, OwnEntries, NowLost, Gap;
    if Contiguous(w'.server.committed, id) && |w.rings[id].pushed| <= MAX_VALID_SEQ {
      CommitOrdered(w, w', id, flush);
      CommitSafe(w, w', id, flush);
    }
  }

  lemma CommitSafe(w: World, w': World, id: RingId, flush: Flush)
    requires Inv(w) && Inv(w') && id in w.rings && Grows(w, w') && AppendedTo(w, w', flush)
    requires SafeUpTo(w, id, LastSeqOf(OwnEntries(w, id)), WasLost)
    requires var s' := StreamOf(w'.server.store, id.kind);
             s'.epoch == id.epoch ==> Ordered(OwnEntries(w', id), w.rings[id].pushed, s'.lastSeq)
    ensures SafeUpTo(w', id, LastSeqOf(OwnEntries(w', id)), WasLost)
  {
    var s', p := StreamOf(w'.server.store, id.kind), PayloadOf(flush, id.kind);
    assert RingOk(w, id, WasLost) && RowOk(w', id.kind, WasLost);
    AppendMeaning(w.server.store, flush, id.kind);
    OwnAfter(w.server.store, flush, id);
    PositionInRange(w');
    if p.epoch == id.epoch {
      LastOfOrdered(OwnEntries(w', id), w.rings[id].pushed, s'.lastSeq);
    } else {
      assert OwnEntries(w, id) + [] == OwnEntries(w, id);
      SafeGrows(w, w', id, LastSeqOf(OwnEntries(w, id)), WasLost);
    }
    hide Append, Fresh, MaxSeq, Own, AllEntries, Evidence, StrandedRing;
  }

  lemma QuietKeepsOrder(w: World, w': World)
    requires AllOrderOk(w) && Grows(w, w')
    requires w'.server.store == w.server.store && w'.server.committed == w.server.committed
    ensures AllOrderOk(w')
  {
    hide Own, AllEntries, Contiguous, Safe;
    forall id | id in w'.rings ensures OrderOk(w', id) {
      assert OrderOk(w, id);
      if Contiguous(w'.server.committed, id) && |w'.rings[id].pushed| <= MAX_VALID_SEQ {
        var s, own := StreamOf(w.server.store, id.kind), OwnEntries(w, id);
        var last := if s.epoch == id.epoch then s.lastSeq else |w.rings[id].pushed| - 1;
        OrderedGrows(own, w.rings[id].pushed, w'.rings[id].pushed, last);
        if s.epoch != id.epoch { OrderedFurther(own, w'.rings[id].pushed, last, |w'.rings[id].pushed| - 1); }
        SafeGrows(w, w', id, LastSeqOf(own), WasLost);
      }
    }
  }

  lemma NewRingKeepsOrder(w: World, id: RingId)
    requires Inv(w) && AllOrderOk(w) && id.epoch != "" && Unused(w, id)
    ensures AllOrderOk(Do(w, NewRing(id)))
  {
    var w' := Do(w, NewRing(id));
    hide Own, AllEntries, Contiguous, Inv;
    forall id' | id' in w'.rings ensures OrderOk(w', id') {
      if id' != id {
        assert OrderOk(w, id');
        if Contiguous(w.server.committed, id') && |w.rings[id'].pushed| <= MAX_VALID_SEQ {
          SafeElsewhere(w, w', id, id', LastSeqOf(OwnEntries(w, id')), WasLost);
        }
      } else {
        NewRingInOrder(w, w', id);
      }
    }
  }

  lemma NewRingInOrder(w: World, w': World, id: RingId)
    requires Inv(w) && id.epoch != "" && Unused(w, id)
    requires w'.server == w.server && w'.rings == w.rings[id := NEW_RING]
    ensures OrderOk(w', id)
  {
    ServerIsSerial(w);
    hide Own, AllEntries, Contiguous, Inv;
    assert forall i :: 0 <= i < |w.server.committed| ==> !Names(w.server.committed[i], id);
    UnnamedOwnsNothing(w.server.committed, id);
  }

  lemma CommitStepKeepsOrder(w: World, t: nat)
    requires Inv(w) && AllOrderOk(w) && t in w.server.tasks && w.server.tasks[t].phase.AllRead?
    ensures AllOrderOk(Do(w, Serve(AppendLock.Commit(t))))
  {
    var w' := Do(w, Serve(AppendLock.Commit(t)));
    var flush := w.server.tasks[t].flush;
    DoKeepsInv(w, Serve(AppendLock.Commit(t)));
    CommitStep(w, w', t);
    AppendLock.CommitEffect(w.server, t);
    CommitGrows(w, w', flush);
    hide Do, OrderOk, Grows, Append, AppendLock.Do, AppendLock.Inv;
    forall id | id in w'.rings ensures OrderOk(w', id) {
      assert id in w.rings && OrderOk(w, id);
      assert TaskOk(w, id.kind, w.server.tasks[t], WasLost);
      CommitKeepsOrderOk(w, w', id, flush);
    }
  }

  lemma DoKeepsOrder(w: World, step: Step)
    requires Inv(w) && AllOrderOk(w)
    ensures AllOrderOk(Do(w, step))
  {
    hide Evidence, AllOrderOk, AppendLock.Inv, AppendLock.Do, Append, CommitBatch, Grows, LostOk;
    if step.NewRing? {
      if step.id.epoch != "" && Unused(w, step.id) { NewRingKeepsOrder(w, step.id); }
    } else if step.Serve? && Committing(w.server, step.step) {
      CommitStepKeepsOrder(w, step.step.t);
    } else {
      QuietStep(w, step);
      QuietKeepsOrder(w, Do(w, step));
    }
  }

  lemma {:induction false} RunKeepsOrder(steps: seq<Step>)
    ensures AllOrderOk(Run(steps))
  {
    if steps != [] {
      hide AllOrderOk, Do, Inv;
      RunKeepsOrder(steps[..|steps| - 1]);
      RunKeepsInv(steps[..|steps| - 1]);
      DoKeepsOrder(Run(steps[..|steps| - 1]), steps[|steps| - 1]);
    }
  }

  /**
   * At most once and in order: while no other epoch's append comes between a ring's own (others
   * may come before or after), whatever the network repeats or reorders, the entries inserted
   * under its epoch are its own with strictly increasing seqs, up to the row's position while
   * the row is in the epoch.
   */
  lemma AtMostOnceInOrder(steps: seq<Step>, id: RingId)
    requires id in Run(steps).rings && Contiguous(Run(steps).server.committed, id)
    requires |Run(steps).rings[id].pushed| <= MAX_VALID_SEQ
    ensures var w := Run(steps);
            var s := StreamOf(w.server.store, id.kind);
            && Ordered(OwnEntries(w, id), w.rings[id].pushed, |w.rings[id].pushed| - 1)
            && (s.epoch == id.epoch ==> Ordered(OwnEntries(w, id), w.rings[id].pushed, s.lastSeq))
  {
    hide Run, OrderOk, Ordered, Contiguous, OwnEntries;
    RunKeepsOrder(steps);
    OrderGives(Run(steps), id);
  }

  lemma OrderGives(w: World, id: RingId)
    requires id in w.rings && OrderOk(w, id) && Contiguous(w.server.committed, id)
    requires |w.rings[id].pushed| <= MAX_VALID_SEQ
    ensures var s := StreamOf(w.server.store, id.kind);
            && Ordered(OwnEntries(w, id), w.rings[id].pushed, |w.rings[id].pushed| - 1)
            && (s.epoch == id.epoch ==> Ordered(OwnEntries(w, id), w.rings[id].pushed, s.lastSeq))
            && SafeUpTo(w, id, LastSeqOf(OwnEntries(w, id)), WasLost)
  {
    hide OwnEntries, Ordered, Contiguous, SafeUpTo;
    var s := StreamOf(w.server.store, id.kind);
    if s.epoch == id.epoch { BoundedByPushed(OwnEntries(w, id), w.rings[id].pushed, s.lastSeq); }
  }

  lemma {:induction false} OrderedAtLeastIndex(entries: seq<Entry>, pushed: seq<Entry>, last: int, i: nat)
    requires Ordered(entries, pushed, last) && i < |entries|
    ensures i <= entries[i].seqNo.value
  {
    assert EntryAt(entries[i], pushed, last);
    if i > 0 { OrderedAtLeastIndex(entries, pushed, last, i - 1); }
  }

  /** An ordered list with every seq up to n in it has seq n at place n. */
  lemma {:induction false} OrderedAndComplete(entries: seq<Entry>, pushed: seq<Entry>, last: int, n: nat)
    requires Ordered(entries, pushed, last) && Numbered(pushed) && n <= last < |pushed|
    requires forall q :: 0 <= q <= last ==> pushed[q] in entries
    ensures n < |entries| && entries[n] == pushed[n]
  {
    if n > 0 { OrderedAndComplete(entries, pushed, last, n - 1); }
    assert pushed[n] in entries;
    var j :| 0 <= j < |entries| && entries[j] == pushed[n];
    OrderedAtLeastIndex(entries, pushed, last, j);
  }

  lemma OrderedAndCompleteIs(entries: seq<Entry>, pushed: seq<Entry>, last: int)
    requires Ordered(entries, pushed, last) && Numbered(pushed) && -1 <= last < |pushed|
    requires forall q :: 0 <= q <= last ==> pushed[q] in entries
    ensures entries == pushed[..last + 1]
  {
    forall n: nat | n <= last ensures n < |entries| && entries[n] == pushed[n] {
      OrderedAndComplete(entries, pushed, last, n);
    }
    assert |entries| <= last + 1 by {
      if |entries| > last + 1 {
        OrderedAtLeastIndex(entries, pushed, last, last + 1);
      }
    }
    if last >= 0 { OrderedAndComplete(entries, pushed, last, last); }
  }

  predicate IsTail(part: seq<Entry>, whole: seq<Entry>) {
    |part| <= |whole| && part == whole[|whole| - |part|..]
  }

  /** Tails of a history keep tails of an epoch's own entries. */
  lemma OwnTail(stored: seq<Chunk>, history: seq<Chunk>, cap: nat, epoch: string)
    requires IsLongestFit(stored, history, cap)
    ensures IsTail(AllEntries(Own(stored, epoch)), AllEntries(Own(history, epoch)))
  {
    var k :| IsLongestFitFrom(stored, history, cap, k);
    assert history == history[..k] + stored;
    OwnConcat(history[..k], stored, epoch);
    AllEntriesAppend(Own(history[..k], epoch), Own(stored, epoch));
  }

  /**
   * Exactly once, in order: while a ring's appends are contiguous, the entries inserted under its
   * epoch are in order and each once, and up to the last of them exactly the lost ones are
   * missing. If none is lost they are entries 0, 1, 2 and so on up to and including every acked
   * one, and up to last_seq while the row is in the epoch. A reader gets a tail of them.
   */
  lemma ExactlyOnceInOrder(steps: seq<Step>, id: RingId)
    requires id in Run(steps).rings && Contiguous(Run(steps).server.committed, id)
    requires |Run(steps).rings[id].pushed| <= MAX_VALID_SEQ
    ensures var w := Run(steps);
            var s, r, own := StreamOf(w.server.store, id.kind), w.rings[id], OwnEntries(w, id);
            && Ordered(own, r.pushed, LastSeqOf(own)) && LastSeqOf(own) < |r.pushed|
            && (forall q :: 0 <= q <= LastSeqOf(own) ==> (r.pushed[q] in own <==> q !in r.lost))
            && (r.lost == {} ==> |own| <= |r.pushed| && own == r.pushed[..|own|] && r.acked < |own|)
            && (r.lost == {} && s.epoch == id.epoch ==> |own| == s.lastSeq + 1)
            && IsTail(AllEntries(Own(s.stored, id.epoch)), own)
  {
    RunKeepsInv(steps);
    RunKeepsOrder(steps);
    hide Run, Own, AllEntries, Ordered, Inv, IsTail, Contiguous, RowOk, OrderOk, RingOk;
    var w := Run(steps);
    OwnInOrder(w, id);
    OwnIsTail(w, id);
    InvGives(w, id);
    MissingAreLost(w, id);
    if w.rings[id].lost == {} { NothingLost(w, id, OwnEntries(w, id)); }
  }

  lemma InvGives(w: World, id: RingId)
    requires Inv(w) && id in w.rings
    ensures LostOk(w) && RingOk(w, id, WasLost) && RowOk(w, id.kind, WasLost)
  {
    hide RingOk, RowOk, LostOk, AppendLock.Inv;
  }

  lemma OwnInOrder(w: World, id: RingId)
    requires Inv(w) && id in w.rings && OrderOk(w, id)
    requires Contiguous(w.server.committed, id) && |w.rings[id].pushed| <= MAX_VALID_SEQ
    ensures var s, own, pushed := StreamOf(w.server.store, id.kind), OwnEntries(w, id), w.rings[id].pushed;
            && Ordered(own, pushed, LastSeqOf(own)) && -1 <= LastSeqOf(own) < |pushed|
            && SafeUpTo(w, id, LastSeqOf(own), WasLost)
            && (s.epoch == id.epoch ==> s.lastSeq >= -1 && Ordered(own, pushed, s.lastSeq))
  {
    PositionInRange(w);
    hide Own, AllEntries, Ordered, Inv, Contiguous, SafeUpTo;
    var s, own, pushed := StreamOf(w.server.store, id.kind), OwnEntries(w, id), w.rings[id].pushed;
    LastOfOrdered(own, pushed, if s.epoch == id.epoch then s.lastSeq else |pushed| - 1);
  }

  lemma OwnIsTail(w: World, id: RingId)
    requires Inv(w)
    ensures IsTail(AllEntries(Own(StreamOf(w.server.store, id.kind).stored, id.epoch)), OwnEntries(w, id))
  {
    hide Own, AllEntries, IsTail, Inv, IsLongestFit;
    var s := StreamOf(w.server.store, id.kind);
    StoredFits(w, id.kind);
    OwnTail(s.stored, s.history, Cap(id.kind), id.epoch);
  }

  lemma MissingAreLost(w: World, id: RingId)
    requires id in w.rings && LostOk(w) && SafeUpTo(w, id, LastSeqOf(OwnEntries(w, id)), WasLost)
    ensures var own, r := OwnEntries(w, id), w.rings[id];
            && (forall q :: 0 <= q < |r.pushed| ==> (r.pushed[q] in own <==> Inserted(w, id, r.pushed[q])))
            && (forall q :: 0 <= q <= LastSeqOf(own) && q < |r.pushed| ==> (r.pushed[q] in own <==> q !in r.lost))
  {
    var own, pushed := OwnEntries(w, id), w.rings[id].pushed;
    hide Own, AllEntries, LastSeqOf;
    forall q: nat | q < |pushed| ensures pushed[q] in own <==> Inserted(w, id, pushed[q]) {
      HeldIsOwn(StreamOf(w.server.store, id.kind).history, id.epoch, pushed[q]);
    }
    forall q: nat | q <= LastSeqOf(own) && q < |pushed| ensures pushed[q] in own <==> q !in w.rings[id].lost {
      assert Safe(w, id, q, WasLost);
      if q in w.rings[id].lost { assert LostAt(w, id, q); }
    }
  }

  lemma StoredFits(w: World, kind: Kind)
    requires Inv(w)
    ensures IsLongestFit(StreamOf(w.server.store, kind).stored, StreamOf(w.server.store, kind).history, Cap(kind))
  {
    ServerIsSerial(w);
    CapIsOneShot(w.server.committed, kind);
    hide Inv;
  }

  lemma NothingLost(w: World, id: RingId, own: seq<Entry>)
    requires id in w.rings && w.rings[id].lost == {} && RingOk(w, id, WasLost) && RowOk(w, id.kind, WasLost)
    requires Ordered(own, w.rings[id].pushed, LastSeqOf(own)) && -1 <= LastSeqOf(own) < |w.rings[id].pushed|
    requires forall q :: 0 <= q < |w.rings[id].pushed| ==>
               (w.rings[id].pushed[q] in own <==> Inserted(w, id, w.rings[id].pushed[q]))
    requires forall q :: 0 <= q <= LastSeqOf(own) ==> w.rings[id].pushed[q] in own
    requires var s := StreamOf(w.server.store, id.kind);
             s.epoch == id.epoch ==> s.lastSeq >= -1 && Ordered(own, w.rings[id].pushed, s.lastSeq)
    ensures var s, r := StreamOf(w.server.store, id.kind), w.rings[id];
            && |own| <= |r.pushed| && own == r.pushed[..|own|] && r.acked < |own|
            && (s.epoch == id.epoch ==> |own| == s.lastSeq + 1)
  {
    var s, r := StreamOf(w.server.store, id.kind), w.rings[id];
    OrderedAndCompleteIs(own, r.pushed, LastSeqOf(own));
    if r.acked >= 0 {
      assert Safe(w, id, r.acked, WasLost);
      InOwn(own, r.pushed, LastSeqOf(own), r.acked);
    }
    if s.epoch == id.epoch && s.lastSeq >= 0 {
      assert Safe(w, id, s.lastSeq, WasLost);
      InOwn(own, r.pushed, LastSeqOf(own), s.lastSeq);
    }
    if s.epoch == id.epoch { LastOfOrdered(own, r.pushed, s.lastSeq); }
  }

  lemma InOwn(own: seq<Entry>, pushed: seq<Entry>, last: int, q: nat)
    requires Ordered(own, pushed, last) && Numbered(pushed) && q < |pushed| && pushed[q] in own
    ensures q <= last
  {
    var i :| 0 <= i < |own| && own[i] == pushed[q];
    assert EntryAt(own[i], pushed, last);
  }

  /** When a ring's are the only appends of their kind, its own chunks are all there are. */
  lemma {:induction false} SoleEpochOwnsAll(flushes: seq<Flush>, id: RingId)
    requires id.epoch != "" && forall i :: 0 <= i < |flushes| ==> Names(flushes[i], id) || Quiet(flushes[i], id.kind)
    ensures var s := StreamOf(AppendAll(EMPTY_STORE, flushes), id.kind);
            AllEntries(Own(s.history, id.epoch)) == AllEntries(s.history)
  {
    hide Append, AllEntries;
    if flushes == [] {
      assert Own([], id.epoch) == [];
    } else {
      hide Own;
      var n := |flushes| - 1;
      SoleEpochOwnsAll(flushes[..n], id);
      OnlyOwn(AppendAll(EMPTY_STORE, flushes[..n]), flushes[n], id);
    }
  }

  lemma SoleEpochIsContiguous(flushes: seq<Flush>, id: RingId)
    requires forall i :: 0 <= i < |flushes| ==> Names(flushes[i], id) || Quiet(flushes[i], id.kind)
    ensures Contiguous(flushes, id)
  {
  }

  lemma OnlyOwn(store: Store, flush: Flush, id: RingId)
    requires id.epoch != "" && (Names(flush, id) || Quiet(flush, id.kind))
    requires var s := StreamOf(store, id.kind); AllEntries(Own(s.history, id.epoch)) == AllEntries(s.history)
    ensures var s' := StreamOf(Append(store, flush).0, id.kind);
            AllEntries(Own(s'.history, id.epoch)) == AllEntries(s'.history)
  {
    var s := StreamOf(store, id.kind);
    OwnAfter(store, flush, id);
    AppendMeaning(store, flush, id.kind);
    hide Append, Fresh, MaxSeq, Own, AllEntries;
    assert AllEntries(s.history) + [] == AllEntries(s.history);
  }

  /** So then everything inserted is the ring's entries, each once and in order. */
  lemma SoleEpochExactlyOnce(steps: seq<Step>, id: RingId)
    requires id in Run(steps).rings && |Run(steps).rings[id].pushed| <= MAX_VALID_SEQ
    requires var flushes := Run(steps).server.committed;
             forall i :: 0 <= i < |flushes| ==> Names(flushes[i], id) || Quiet(flushes[i], id.kind)
    requires Run(steps).rings[id].lost == {}
    ensures var w := Run(steps);
            var all, r := AllEntries(StreamOf(w.server.store, id.kind).history), w.rings[id];
            |all| <= |r.pushed| && all == r.pushed[..|all|] && r.acked < |all|
  {
    hide Run, Contiguous, Own, AllEntries, Ordered, IsTail;
    var w := Run(steps);
    RunKeepsInv(steps);
    ServerIsSerial(w);
    NonEmptyEpoch(w, id);
    hide Inv;
    SoleEpochIsContiguous(w.server.committed, id);
    SoleEpochOwnsAll(w.server.committed, id);
    ExactlyOnceInOrder(steps, id);
  }

  lemma {:induction false} AppendsInRange(flushes: seq<Flush>, kind: Kind)
    ensures StreamOf(AppendAll(EMPTY_STORE, flushes), kind).lastSeq >= -1
  {
    if flushes != [] {
      var front := flushes[..|flushes| - 1];
      AppendsInRange(front, kind);
      AppendMeaning(AppendAll(EMPTY_STORE, front), flushes[|flushes| - 1], kind);
      var s, p := StreamOf(AppendAll(EMPTY_STORE, front), kind), PayloadOf(flushes[|flushes| - 1], kind);
      MaxSeqIsMax(p.items, Position(s, p.epoch));
    }
  }

  lemma PositionInRange(w: World)
    requires Inv(w)
    ensures forall kind :: StreamOf(w.server.store, kind).lastSeq >= -1
  {
    ServerIsSerial(w);
    hide Inv;
    forall kind ensures StreamOf(w.server.store, kind).lastSeq >= -1 {
      AppendsInRange(w.server.committed, kind);
    }
  }

  /**
   * When an append stores again what is stored: as long as an epoch's appends have been
   * contiguous, if and only if the row has meanwhile been in another epoch and the payload
   * carries a held entry.
   */
  lemma StoredAgainIff(steps: seq<Step>, t: nat, id: RingId)
    requires Appending(Run(steps), t, id) && Contiguous(Run(steps).server.committed, id)
    requires |Run(steps).rings[id].pushed| <= MAX_VALID_SEQ
    ensures var w := Run(steps);
            var flush, pushed := w.server.tasks[t].flush, w.rings[id].pushed;
            (exists q: nat :: StoresAgain(w.server.store, flush, id.kind, pushed, q))
            <==> StreamOf(w.server.store, id.kind).epoch != id.epoch
                 && exists q: nat :: CarriesHeld(w.server.store, flush, id.kind, pushed, q)
  {
    hide Run, OrderOk, Inv, StoresAgain, CarriesHeld, IsBlock, Numbered, Contiguous;
    var w := Run(steps);
    var from := AppendsABlock(steps, t, id);
    RunKeepsInv(steps);
    RunKeepsOrder(steps);
    OrderGives(w, id);
    PositionInRange(w);
    hide Ordered, OwnEntries, SafeUpTo;
    var flush, pushed := w.server.tasks[t].flush, w.rings[id].pushed;
    forall q: nat
      ensures StoresAgain(w.server.store, flush, id.kind, pushed, q)
              <==> StreamOf(w.server.store, id.kind).epoch != id.epoch && CarriesHeld(w.server.store, flush, id.kind, pushed, q)
    {
      StoresAgainOnlyAfterReset(w, flush, id, from, q);
    }
  }

  lemma StoresAgainOnlyAfterReset(w: World, flush: Flush, id: RingId, from: nat, q: nat)
    requires id in w.rings && id.epoch != "" && Names(flush, id)
    requires var s, pushed := StreamOf(w.server.store, id.kind), w.rings[id].pushed;
             && Usable(pushed) && IsBlock(PayloadOf(flush, id.kind).items, pushed, from)
             && (s.epoch == id.epoch ==> Ordered(OwnEntries(w, id), pushed, s.lastSeq))
    ensures var s, pushed := StreamOf(w.server.store, id.kind), w.rings[id].pushed;
            StoresAgain(w.server.store, flush, id.kind, pushed, q)
            <==> s.epoch != id.epoch && CarriesHeld(w.server.store, flush, id.kind, pushed, q)
  {
    var s, pushed := StreamOf(w.server.store, id.kind), w.rings[id].pushed;
    StoresAgainIff(w.server.store, flush, id.kind, pushed, from, q);
    if s.epoch == id.epoch && CarriesHeld(w.server.store, flush, id.kind, pushed, q) {
      HeldIsOwn(s.history, id.epoch, pushed[q]);
      InOwn(OwnEntries(w, id), pushed, s.lastSeq, q);
    }
    hide StoresAgain, Own, AllEntries, Holds, IsBlock, Ordered;
  }

  // ── The conditions are needed ─────────────────────────────────────────────

  lemma OneItem(e: Entry, seqNo: nat, position: int)
    requires e.seqNo == IntSeq(seqNo) && seqNo < 9007199254740992
    ensures Fresh([Dict(e)], position) == (if seqNo <= position then [] else [e])
    ensures MaxSeq([Dict(e)], position) == (if seqNo <= position then position else seqNo)
  {
    assert [Dict(e)][..0] == [];
  }

  /** A one-entry flush under another epoch than the row's is inserted, whatever is stored already. */
  lemma AppendUnderNewEpoch(flushes: seq<Flush>, f: Flush, e: Entry)
    requires f.log.items == [Dict(e)] && e.seqNo == IntSeq(0) && f.audit == Payload("", [])
    requires f.log.epoch != "" && f.log.epoch != AppendAll(EMPTY_STORE, flushes).log.epoch
    ensures var s, s' := AppendAll(EMPTY_STORE, flushes).log, AppendAll(EMPTY_STORE, flushes + [f]).log;
            s'.epoch == f.log.epoch && AllEntries(s'.history) == AllEntries(s.history) + [e]
  {
    assert (flushes + [f])[..|flushes|] == flushes;
    assert AppendAll(EMPTY_STORE, flushes + [f]) == Append(AppendAll(EMPTY_STORE, flushes), f).0;
    hide AppendAll;
    AppendMeaning(AppendAll(EMPTY_STORE, flushes), f, Log);
    hide Append, AppendPayload, AllEntries, Fresh, MaxSeq;
    OneItem(e, 0, -1);
  }

  lemma NoAppends()
    ensures AppendAll(EMPTY_STORE, []) == EMPTY_STORE && AllEntries([]) == []
  {
  }

  /** A late flush from an older epoch is re-adopted, and its entries are stored a second time. */
  lemma InterleavedEpochsDuplicate(a: Flush, b: Flush, e: Entry)
    requires e.seqNo == IntSeq(0)
    requires a == Flush(Payload("a", [Dict(e)]), Payload("", [])) && b == Flush(Payload("b", [Dict(e)]), Payload("", []))
    ensures AllEntries(AppendAll(EMPTY_STORE, [a] + [b] + [a]).log.history) == [e, e, e]
  {
    NoAppends();
    hide AppendAll, Append, AllEntries;
    AppendUnderNewEpoch([], a, e);
    assert [] + [a] == [a];
    AppendUnderNewEpoch([a], b, e);
    AppendUnderNewEpoch([a] + [b], a, e);
  }

  /**
   * The server acks past a gap: an entry its client gave up is acked with the first later one,
   * and refused if it comes after all while the row is still in the epoch.
   */
  lemma GapIsAcked(e0: Entry, e1: Entry)
    requires e0.seqNo == IntSeq(0) && e1.seqNo == IntSeq(1)
    ensures var f := Flush(Payload("a", [Dict(e1)]), Payload("", []));
            var (store, ack) := Append(EMPTY_STORE, f);
            && ack.lastSeq == 1 && AllEntries(store.log.history) == [e1]
            && AllEntries(Append(store, Flush(Payload("a", [Dict(e0)]), Payload("", []))).0.log.history) == [e1]
  {
    var f, late := Flush(Payload("a", [Dict(e1)]), Payload("", [])), Flush(Payload("a", [Dict(e0)]), Payload("", []));
    NoAppends();
    AppendMeaning(EMPTY_STORE, f, Log);
    var store := Append(EMPTY_STORE, f).0;
    AppendMeaning(store, late, Log);
    OneItem(e1, 1, -1);
    OneItem(e0, 0, 1);
    hide Append, AllEntries, Fresh, MaxSeq, AppendPayload;
    assert store.log.epoch == "a" && store.log.lastSeq == 1;
  }
}
