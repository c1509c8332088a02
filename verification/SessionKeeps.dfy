/**
 * What an append stores of any payload at all, whatever its entries carry for a seq: the entries
 * it may drop are resends, and nothing else a client sends is lost on the way into a chunk.
 */
module SessionKeeps {
  import opened Chunks
  import opened SessionStore
  import opened SessionLoss
  import opened SessionOrder
  import AppendLock

  /** An audit payload that names no epoch is not looked at. */
  predicate Ignored(flush: Flush, kind: Kind) {
    kind == Audit && PayloadOf(flush, kind).epoch == ""
  }

  lemma AddedIs(store: Store, flush: Flush, kind: Kind)
    ensures var s, s', p := StreamOf(store, kind), StreamOf(Append(store, flush).0, kind), PayloadOf(flush, kind);
            var position := if p.epoch == "" || p.epoch == s.epoch then s.lastSeq else -1;
            && s'.history == s.history + NewChunksOf(store, flush, kind)
            && AllEntries(NewChunksOf(store, flush, kind)) == (if Ignored(flush, kind) then [] else Fresh(p.items, position))
            && (forall i :: 0 <= i < |NewChunksOf(store, flush, kind)| ==> NewChunksOf(store, flush, kind)[i].origin == p.epoch)
  {
    AppendMeaning(store, flush, kind);
    var s, s', p := StreamOf(store, kind), StreamOf(Append(store, flush).0, kind), PayloadOf(flush, kind);
    hide Append, Fresh, MaxSeq, AllEntries;
    NoChunks();
    if !Ignored(flush, kind) {
      TailEntries(s.history, s'.history, Fresh(p.items, Position(s, p.epoch)), p.epoch);
    }
  }

  lemma NoChunks()
    ensures AllEntries([]) == []
  {
  }

  /**
   * Exactly what one append inserts of an entry: every occurrence that was sent, unless its seq is
   * an integer in [0, 2^53) at or below the position stored for the payload's epoch, or for any
   * epoch if the payload names none. What goes in, goes in under the payload's epoch.
   */
  lemma InsertedIff(store: Store, flush: Flush, kind: Kind, e: Entry)
    ensures var s, p := StreamOf(store, kind), PayloadOf(flush, kind);
            multiset(AllEntries(NewChunksOf(store, flush, kind)))[e]
            == if kind == Audit && p.epoch == "" then 0
               else if e.seqNo.IntSeq? && 0 <= e.seqNo.value < 9007199254740992
                       && e.seqNo.value <= (if p.epoch == "" || p.epoch == s.epoch then s.lastSeq else -1) then 0
               else multiset(p.items)[Dict(e)]
    ensures forall i :: 0 <= i < |NewChunksOf(store, flush, kind)| ==>
              NewChunksOf(store, flush, kind)[i].origin == PayloadOf(flush, kind).epoch
  {
    AddedIs(store, flush, kind);
    var s, p := StreamOf(store, kind), PayloadOf(flush, kind);
    FreshCounts(p.items, if p.epoch == "" || p.epoch == s.epoch then s.lastSeq else -1, e);
    hide NewChunksOf, Fresh, AllEntries;
  }

  /** And in the order it was sent: `at` are the places in the payload of what is inserted. */
  lemma InsertedInOrder(store: Store, flush: Flush, kind: Kind) returns (at: seq<nat>)
    ensures Places(at, AllEntries(NewChunksOf(store, flush, kind)), PayloadOf(flush, kind).items)
  {
    AddedIs(store, flush, kind);
    at := [];
    if !Ignored(flush, kind) {
      var s, p := StreamOf(store, kind), PayloadOf(flush, kind);
      at := FreshInOrder(p.items, if p.epoch == "" || p.epoch == s.epoch then s.lastSeq else -1);
    }
    hide NewChunksOf, Fresh, AllEntries;
  }

  /** How often an entry was sent in the payloads of one epoch. */
  function TimesSent(flushes: seq<Flush>, kind: Kind, epoch: string, e: Entry): nat {
    if flushes == [] then 0
    else
      var p := PayloadOf(flushes[|flushes| - 1], kind);
      TimesSent(flushes[..|flushes| - 1], kind, epoch, e) + (if p.epoch == epoch then multiset(p.items)[Dict(e)] else 0)
  }

  function OwnCount(store: Store, kind: Kind, epoch: string, e: Entry): nat {
    multiset(AllEntries(Own(StreamOf(store, kind).history, epoch)))[e]
  }

  lemma OwnCountAfter(store: Store, flush: Flush, kind: Kind, epoch: string, e: Entry)
    ensures OwnCount(Append(store, flush).0, kind, epoch, e)
            == OwnCount(store, kind, epoch, e)
               + (if PayloadOf(flush, kind).epoch == epoch then multiset(AllEntries(NewChunksOf(store, flush, kind)))[e] else 0)
  {
    AddedIs(store, flush, kind);
    var history, added := StreamOf(store, kind).history, NewChunksOf(store, flush, kind);
    hide NewChunksOf, Append, Fresh, AllEntries, Own;
    OwnConcat(history, added, epoch);
    OwnAll(added, PayloadOf(flush, kind).epoch, epoch);
    AllEntriesAppend(Own(history, epoch), Own(added, epoch));
    NoChunks();
  }

  /**
   * An entry whose seq cannot be compared (missing, not an integer, negative, 2^53 or more) is
   * never dropped: over any sequence of appends it is in the epoch's chunks as often as it was sent
   * under that epoch.
   */
  lemma {:induction false} UnnumberedKept(flushes: seq<Flush>, kind: Kind, epoch: string, e: Entry)
    requires !(e.seqNo.IntSeq? && 0 <= e.seqNo.value < 9007199254740992)
    requires kind == Audit ==> epoch != ""
    ensures multiset(AllEntries(Own(StreamOf(AppendAll(EMPTY_STORE, flushes), kind).history, epoch)))[e]
            == TimesSent(flushes, kind, epoch, e)
  {
    hide Append;
    if flushes == [] {
      NoChunks();
    } else {
      var front, last := flushes[..|flushes| - 1], flushes[|flushes| - 1];
      UnnumberedKept(front, kind, epoch, e);
      OwnCountAfter(AppendAll(EMPTY_STORE, front), last, kind, epoch, e);
      InsertedIff(AppendAll(EMPTY_STORE, front), last, kind, e);
      hide Own, AllEntries, NewChunksOf;
    }
  }

  /** The same of the server, however the awaits of concurrent flushes interleave. */
  lemma ServerKeepsUnnumbered(steps: seq<AppendLock.Step>, kind: Kind, epoch: string, e: Entry)
    requires !(e.seqNo.IntSeq? && 0 <= e.seqNo.value < 9007199254740992)
    requires kind == Audit ==> epoch != ""
    ensures multiset(AllEntries(Own(StreamOf(AppendLock.Run(steps).store, kind).history, epoch)))[e]
            == TimesSent(AppendLock.Run(steps).committed, kind, epoch, e)
  {
    AppendLock.InterleavingsAreSerial(steps);
    UnnumberedKept(AppendLock.Run(steps).committed, kind, epoch, e);
  }

  /** The upsert alone, however stale the reads: under one epoch the position never falls, and no other rows change. */
  lemma PositionNeverFalls(now: Store, seen: Reads, flush: Flush, kind: Kind)
    ensures var s, s' := StreamOf(now, kind), StreamOf(CommitBatch(now, seen, flush).0, kind);
            s'.epoch == s.epoch ==> s'.lastSeq >= s.lastSeq
  {
    hide NewChunks, Fresh, MaxSeq, DropOldest, Total;
  }
}
