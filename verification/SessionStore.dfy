/**
 * The stored half of the session-log protocol (server/src/db.py): one (match, slot)'s metadata
 * row and chunk rows, and what one append does to them. The log and the input audit are two
 * streams with the same rules, apart from a flush that names no epoch.
 */
module SessionStore {
  import opened Chunks

  datatype Kind = Log | Audit

  const LOG_CAP: nat := 12 * 1024 * 1024
  const AUDIT_CAP: nat := 8 * 1024 * 1024

  function Cap(kind: Kind): nat {
    if kind == Audit then AUDIT_CAP else LOG_CAP
  }

  /**
   * The columns and chunks of one kind. `history` is every chunk ever inserted, oldest first;
   * the database does not hold it.
   */
  datatype Stream = Stream(epoch: string, lastSeq: int, stored: seq<Chunk>, history: seq<Chunk>)

  // The migrations' column defaults; a missing row reads the same way.
  const EMPTY_STREAM := Stream("", -1, [], [])

  datatype Payload = Payload(epoch: string, items: seq<Item>)

  datatype Flush = Flush(log: Payload, audit: Payload)

  datatype Ack = Ack(lastSeq: int, auditLastSeq: int)

  datatype Store = Store(log: Stream, audit: Stream)

  const EMPTY_STORE := Store(EMPTY_STREAM, EMPTY_STREAM)

  function StreamOf(store: Store, kind: Kind): Stream {
    if kind == Audit then store.audit else store.log
  }

  function PayloadOf(flush: Flush, kind: Kind): Payload {
    if kind == Audit then flush.audit else flush.log
  }

  function AckOf(ack: Ack, kind: Kind): int {
    if kind == Audit then ack.auditLastSeq else ack.lastSeq
  }

  /** The position a payload is deduped against, given the row read at flush start. */
  function Position(row: Stream, epoch: string): int {
    if epoch == "" || epoch == row.epoch then row.lastSeq else -1
  }

  /** The upsert: the larger position under the same epoch, the new one under another. */
  function Upsert(now: Stream, epoch: string, maxSeq: int): Stream {
    now.(epoch := epoch,
         lastSeq := if now.epoch == epoch && now.lastSeq > maxSeq then now.lastSeq else maxSeq)
  }

  /** The chunk INSERTs and, when the total read earlier overflows the cap, the DELETE. */
  function InsertChunks(kind: Kind, now: Stream, total: nat, chunks: seq<Chunk>): Stream {
    var all := now.stored + chunks;
    now.(stored := if chunks != [] && total + Total(chunks) > Cap(kind) then DropOldest(all, Cap(kind)) else all,
         history := now.history + chunks)
  }

  /**
   * One payload's part of the batch. `now` is the stream when the batch runs; `row` and `total`
   * were read by earlier queries.
   */
  function CommitPayload(kind: Kind, now: Stream, row: Stream, total: nat, p: Payload): (r: (Stream, int)) {
    if kind == Audit && p.epoch == "" then (Upsert(now, row.epoch, row.lastSeq), row.lastSeq)
    else
      var position := Position(row, p.epoch);
      var maxSeq := MaxSeq(p.items, position);
      var chunks := NewChunks(p.epoch, Fresh(p.items, position), position);
      (Upsert(InsertChunks(kind, now, total, chunks), p.epoch, maxSeq), maxSeq)
  }

  // What an append has read before its batch: the row, then each kind's stored byte total.
  datatype Reads = Reads(row: Store, logTotal: nat, auditTotal: nat)

  function FreshReads(store: Store): Reads {
    Reads(store, Total(store.log.stored), Total(store.audit.stored))
  }

  function CommitBatch(now: Store, seen: Reads, flush: Flush): (r: (Store, Ack)) {
    var l := CommitPayload(Log, now.log, seen.row.log, seen.logTotal, flush.log);
    var a := CommitPayload(Audit, now.audit, seen.row.audit, seen.auditTotal, flush.audit);
    (Store(l.0, a.0), Ack(l.1, a.1))
  }

  /** An append whose reads are still true when its batch runs. */
  function Append(store: Store, flush: Flush): (r: (Store, Ack)) {
    CommitBatch(store, FreshReads(store), flush)
  }

  function AppendPayload(kind: Kind, s: Stream, p: Payload): (Stream, int) {
    CommitPayload(kind, s, s, Total(s.stored), p)
  }

  /** The store after a sequence of appends. */
  function AppendAll(store: Store, flushes: seq<Flush>): Store {
    if flushes == [] then store
    else Append(AppendAll(store, flushes[..|flushes| - 1]), flushes[|flushes| - 1]).0
  }

  /**
   * What one append means: the log and the audit do not influence each other, the acked
   * position is the stored one, and what is inserted is exactly the payload's entries past
   * the position it is deduped against. An audit payload without an epoch changes nothing.
   */
  lemma AppendMeaning(store: Store, flush: Flush, kind: Kind)
    ensures var s, s', p := StreamOf(store, kind), StreamOf(Append(store, flush).0, kind), PayloadOf(flush, kind);
            && s'.lastSeq == AckOf(Append(store, flush).1, kind)
            && (s', s'.lastSeq) == AppendPayload(kind, s, p)
            && (kind == Audit && p.epoch == "" ==> s' == s)
            && (kind == Log || p.epoch != "" ==>
                  && s'.epoch == p.epoch
                  && s'.lastSeq == MaxSeq(p.items, Position(s, p.epoch))
                  && s.history <= s'.history
                  && AllEntries(s'.history) == AllEntries(s.history) + Fresh(p.items, Position(s, p.epoch))
                  && forall i :: |s.history| <= i < |s'.history| ==> s'.history[i].origin == p.epoch)
  {
    hide Fresh, MaxSeq, NewChunks, DropOldest, Total, AllEntries;
    var s, p := StreamOf(store, kind), PayloadOf(flush, kind);
    var position := Position(s, p.epoch);
    MaxSeqIsMax(p.items, position);
    NewChunksHold(p.epoch, Fresh(p.items, position), position);
    var chunks := NewChunks(p.epoch, Fresh(p.items, position), position);
    AllEntriesAppend(s.history, chunks);
    var h := s.history + chunks;
    assert forall i :: |s.history| <= i < |h| ==> h[i] == chunks[i - |s.history|];
  }

  lemma {:induction false} EntryInChunk(chunks: seq<Chunk>, e: Entry) returns (i: nat)
    requires e in AllEntries(chunks)
    ensures i < |chunks| && e in chunks[i].entries
  {
    var n := |chunks| - 1;
    if e in chunks[n].entries {
      i := n;
    } else {
      i := EntryInChunk(chunks[..n], e);
    }
  }

  /** Some chunk ever inserted under `epoch` holds the entry. */
  ghost predicate Holds(history: seq<Chunk>, epoch: string, e: Entry) {
    exists i :: 0 <= i < |history| && history[i].origin == epoch && e in history[i].entries
  }

  lemma HoldsGrows(history: seq<Chunk>, more: seq<Chunk>, epoch: string, e: Entry)
    requires history <= more && Holds(history, epoch, e)
    ensures Holds(more, epoch, e)
  {
    var i :| 0 <= i < |history| && history[i].origin == epoch && e in history[i].entries;
    assert more[i] == history[i];
  }

  lemma NewChunksReach(history: seq<Chunk>, epoch: string, kept: seq<Entry>, last: int, e: Entry)
    requires e in kept
    ensures Holds(history + NewChunks(epoch, kept, last), epoch, e)
  {
    var chunks := NewChunks(epoch, kept, last);
    NewChunksHold(epoch, kept, last);
    var i := EntryInChunk(chunks, e);
    assert (history + chunks)[|history| + i] == chunks[i];
  }

  /** An entry past the position it is deduped against is inserted. */
  lemma FreshIsInserted(store: Store, flush: Flush, kind: Kind, e: Entry)
    requires var p := PayloadOf(flush, kind);
             && p.epoch != "" && Dict(e) in p.items
             && !(e.seqNo.IntSeq? && 0 <= e.seqNo.value < 9007199254740992
                  && p.epoch == StreamOf(store, kind).epoch && e.seqNo.value <= StreamOf(store, kind).lastSeq)
    ensures Holds(StreamOf(Append(store, flush).0, kind).history, PayloadOf(flush, kind).epoch, e)
  {
    var s, p := StreamOf(store, kind), PayloadOf(flush, kind);
    var position := Position(s, p.epoch);
    FreshMembers(p.items, position, e);
    NewChunksReach(s.history, p.epoch, Fresh(p.items, position), position, e);
  }

  /** The stored chunks are the longest suffix of everything ever inserted that fits the cap. */
  ghost predicate Capped(store: Store, kind: Kind) {
    IsLongestFit(StreamOf(store, kind).stored, StreamOf(store, kind).history, Cap(kind))
  }

  lemma AppendKeepsCapped(store: Store, flush: Flush, kind: Kind)
    requires Capped(store, kind)
    ensures Capped(Append(store, flush).0, kind)
  {
    var s, p, cap := StreamOf(store, kind), PayloadOf(flush, kind), Cap(kind);
    if kind == Log || p.epoch != "" {
      var position := Position(s, p.epoch);
      var chunks := NewChunks(p.epoch, Fresh(p.items, position), position);
      var s' := StreamOf(Append(store, flush).0, kind);
      if chunks == [] {
        assert s.stored + chunks == s.stored && s.history + chunks == s.history;
      } else {
        TotalAppend(s.stored, chunks);
        if Total(s.stored) + Total(chunks) > cap {
          DropOldestIsLongestFit(s.stored + chunks, cap);
        } else {
          WholeFits(s.stored + chunks, cap);
        }
        FitAgain(s.stored, s.history, chunks, s'.stored, cap);
      }
    }
  }

  /**
   * Capping on every flush comes to the same as capping the whole history once: after any run
   * of flushes the stored chunks are its longest suffix within the cap. So the total never
   * exceeds the cap, and nothing has been deleted while the history fits.
   */
  lemma {:induction false} CapIsOneShot(flushes: seq<Flush>, kind: Kind)
    ensures Capped(AppendAll(EMPTY_STORE, flushes), kind)
    ensures var s := StreamOf(AppendAll(EMPTY_STORE, flushes), kind);
            var cap := if kind == Audit then 8388608 else 12582912;
            Total(s.stored) <= cap && (Total(s.history) <= cap ==> s.stored == s.history)
  {
    var store := AppendAll(EMPTY_STORE, flushes);
    if flushes == [] {
      WholeFits([], Cap(kind));
    } else {
      CapIsOneShot(flushes[..|flushes| - 1], kind);
      AppendKeepsCapped(AppendAll(EMPTY_STORE, flushes[..|flushes| - 1]), flushes[|flushes| - 1], kind);
    }
    var s := StreamOf(store, kind);
    var k :| IsLongestFitFrom(s.stored, s.history, Cap(kind), k);
    assert s.history[0..] == s.history;
  }

  /** get_full_log_entries for a row with no legacy log_data, and get_input_audit: the stored chunks in order. */
  method ReadEntries(chunks: seq<Chunk>) returns (entries: seq<Entry>)
    ensures entries == AllEntries(chunks)
  {
    entries := [];
    for i := 0 to |chunks|
      invariant entries == AllEntries(chunks[..i])
    {
      assert chunks[..i + 1][..i] == chunks[..i];
      entries := entries + chunks[i].entries;
    }
    assert chunks[..|chunks|] == chunks;
  }

  // What one payload adds to the batch.
  datatype Statements = Statements(inserts: seq<Chunk>, capped: bool, epoch: string, maxSeq: int)

  function Apply(kind: Kind, now: Stream, st: Statements): Stream {
    var all := now.stored + st.inserts;
    Upsert(now.(stored := if st.capped then DropOldest(all, Cap(kind)) else all, history := now.history + st.inserts),
           st.epoch, st.maxSeq)
  }

  /** One row per group, with the running high-water mark, and their total size. */
  method GroupRows(origin: string, groups: seq<seq<Entry>>, last: int) returns (inserts: seq<Chunk>, newBytes: nat)
    ensures inserts == Rows(origin, groups, last)
    ensures newBytes == Total(inserts)
  {
    inserts, newBytes := [], 0;
    var highSeq := last;
    for i := 0 to |groups|
      invariant inserts == Rows(origin, groups[..i], last)
      invariant highSeq == HighAfter(groups[..i], last)
      invariant newBytes == Total(inserts)
    {
      assert groups[..i + 1] == groups[..i] + [groups[i]];
      var group := groups[i];
      RowsSnoc(origin, groups[..i], group, last);
      var seqs := Seqs(group);
      var firstSeq := if seqs != [] then MinOf(seqs) else highSeq;
      highSeq := MaxOf(seqs, highSeq);
      var row := Chunk(origin, firstSeq, highSeq, group, JsonSize(group));
      TotalAppend(inserts, [row]);
      newBytes := newBytes + row.size;
      inserts := inserts + [row];
    }
    assert groups[..|groups|] == groups;
  }

  /** The rows of one (match, slot): its session_logs columns and its session_log_chunks. */
  class Database {
    var lastSeq: int
    var logEpoch: string
    var auditLastSeq: int
    var auditEpoch: string
    var logChunks: seq<Chunk>
    var auditChunks: seq<Chunk>
    ghost var logHistory: seq<Chunk>
    ghost var auditHistory: seq<Chunk>

    ghost function State(): Store
      reads this
    {
      Store(Stream(logEpoch, lastSeq, logChunks, logHistory),
            Stream(auditEpoch, auditLastSeq, auditChunks, auditHistory))
    }

    constructor ()
      ensures State() == EMPTY_STORE
    {
      lastSeq, logEpoch, auditLastSeq, auditEpoch := -1, "", -1, "";
      logChunks, auditChunks, logHistory, auditHistory := [], [], [], [];
    }

    method StoredChunkBytes(kind: Kind) returns (total: nat)
      ensures total == Total(StreamOf(State(), kind).stored)
    {
      var chunks := if kind == Audit then auditChunks else logChunks;
      total := 0;
      for i := 0 to |chunks|
        invariant total == Total(chunks[..i])
      {
        assert chunks[..i + 1] == chunks[..i] + [chunks[i]];
        TotalAppend(chunks[..i], [chunks[i]]);
        total := total + chunks[i].size;
      }
      assert chunks[..|chunks|] == chunks;
    }

    /** The INSERTs for the new entries, and whether the cap DELETE follows them. */
    method ChunkStatements(kind: Kind, origin: string, newEntries: seq<Entry>, last: int)
      returns (inserts: seq<Chunk>, capped: bool)
      ensures inserts == NewChunks(origin, newEntries, last)
      ensures capped <==> inserts != []
                          && Total(StreamOf(State(), kind).stored) + Total(inserts) > Cap(kind)
    {
      NewChunksHold(origin, newEntries, last);
      if newEntries == [] {
        return [], false;
      }
      hide IsSplit, IsFewest;
      var groups := SplitEntries(newEntries);
      var newBytes;
      inserts, newBytes := GroupRows(origin, groups, last);
      var stored := StoredChunkBytes(kind);
      capped := stored + newBytes > Cap(kind);
    }

    /** One payload's statements: its chunk INSERTs, the cap DELETE, and the position for the upsert. */
    method PayloadStatements(kind: Kind, p: Payload) returns (st: Statements)
      ensures Apply(kind, StreamOf(State(), kind), st) == AppendPayload(kind, StreamOf(State(), kind), p).0
      ensures st.maxSeq == AppendPayload(kind, StreamOf(State(), kind), p).1
      ensures st.maxSeq == AppendPayload(kind, StreamOf(State(), kind), p).0.lastSeq
    {
      var rowEpoch, rowLastSeq := logEpoch, lastSeq;
      if kind == Audit {
        rowEpoch, rowLastSeq := auditEpoch, auditLastSeq;
        if p.epoch == "" {
          st := Statements([], false, rowEpoch, rowLastSeq);
          assert StreamOf(State(), kind).stored + [] == StreamOf(State(), kind).stored;
          assert StreamOf(State(), kind).history + [] == StreamOf(State(), kind).history;
          return;
        }
      }
      var sameEpoch := p.epoch == "" || p.epoch == rowEpoch;
      var position := if sameEpoch then rowLastSeq else -1;
      var newEntries, maxSeq := EntriesPast(p.items, position);
      var inserts, capped := ChunkStatements(kind, p.epoch, newEntries, position);
      MaxSeqIsMax(p.items, position);
      st := Statements(inserts, capped, p.epoch, maxSeq);
    }

    /** The batch: all of its statements, or (when it fails) none. */
    method Batch(log: Statements, audit: Statements)
      modifies this
      ensures State() == Store(Apply(Log, old(State()).log, log), Apply(Audit, old(State()).audit, audit))
    {
      logChunks := logChunks + log.inserts;
      logHistory := logHistory + log.inserts;
      if log.capped {
        logChunks := DropOldest(logChunks, Cap(Log));
      }
      auditChunks := auditChunks + audit.inserts;
      auditHistory := auditHistory + audit.inserts;
      if audit.capped {
        auditChunks := DropOldest(auditChunks, Cap(Audit));
      }
      lastSeq := if logEpoch == log.epoch && lastSeq > log.maxSeq then lastSeq else log.maxSeq;
      logEpoch := log.epoch;
      auditLastSeq := if auditEpoch == audit.epoch && auditLastSeq > audit.maxSeq then auditLastSeq else audit.maxSeq;
      auditEpoch := audit.epoch;
    }

    method AppendSessionLogLocked(flush: Flush) returns (ack: Ack)
      modifies this
      ensures State() == Append(old(State()), flush).0
      ensures ack == Append(old(State()), flush).1
      ensures ack == Ack(lastSeq, auditLastSeq)
    {
      var log := PayloadStatements(Log, flush.log);
      var audit := PayloadStatements(Audit, flush.audit);
      Batch(log, audit);
      ack := Ack(log.maxSeq, audit.maxSeq);
    }
  }
}
