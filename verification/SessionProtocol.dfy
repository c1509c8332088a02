/**
 * The whole session-log protocol: client rings (web/static/shared.js and the input audit of
 * web/static/netplay-rollback.js), a network that loses, duplicates and reorders, and the
 * server of AppendLock, interleaved at every await.
 */
module SessionProtocol {
  import opened Wrappers
  import opened Chunks
  import opened SessionStore
  import AppendLock

  // A client's ring (or its pending audit records) between two resets: a reset takes a new epoch.
  datatype RingId = RingId(kind: Kind, epoch: string)

  /**
   * `pushed` is every entry ever logged, its index the seq; the ring still holds those from
   * `oldest` on. `lost` are the seqs that some append moved the position past although they are
   * not stored. `givenUp` are those a client or the upload handler let go before they were acked:
   * overwritten in the ring, left out of a keepalive body, or trimmed.
   */
  datatype Ring = Ring(pushed: seq<Entry>, oldest: nat, acked: int, givenUp: set<nat>, lost: set<nat>)

  const NEW_RING := Ring([], 0, -1, {}, {})

  // An answer travelling back: the epochs of the flush that was sent, and its ack.
  datatype Receipt = Receipt(logEpoch: string, auditEpoch: string, ack: Ack)

  /** `flushes` and `receipts` only grow: any of them may arrive late, again, or never. */
  datatype World = World(
    server: AppendLock.Server,
    rings: map<RingId, Ring>,
    flushes: set<Flush>,
    receipts: set<Receipt>)

  const INITIAL := World(AppendLock.INITIAL, map[], {}, {})

  // The part of a ring one flush sends: its entries with from <= seq < to.
  datatype Slice = NoSlice | Slice(epoch: string, from: nat, to: nat)

  datatype Step =
    | NewRing(id: RingId)
    | Push(id: RingId, body: nat, bytes: nat, keepFrom: nat)
    | Send(log: Slice, audit: Slice)
    | Foreign(flush: Flush)                 // a legacy or unrelated caller, under no ring's epoch
    | Deliver(t: nat, flush: Flush, trimLog: nat, trimAudit: nat)
    | Serve(step: AppendLock.Step)          // one step of a task already at the server
    | Receive(receipt: Receipt)
    | Restart(id: RingId)                   // the flush cursor starts over

  function EpochOf(r: Receipt, kind: Kind): string {
    if kind == Audit then r.auditEpoch else r.logEpoch
  }

  function ReceiptFor(flush: Flush, ack: Ack): Receipt {
    Receipt(flush.log.epoch, flush.audit.epoch, ack)
  }

  /** The first seq a flush may carry: past the ack, and still in the ring. */
  function Start(r: Ring): nat {
    if r.acked + 1 > r.oldest then r.acked + 1 else r.oldest
  }

  predicate Between(q: nat, from: int, to: int) {
    from <= q < to
  }

  function Range(from: int, to: int): set<nat> {
    set q: nat | q < to && Between(q, from, to)
  }

  predicate SliceOk(w: World, kind: Kind, s: Slice) {
    s.NoSlice? || (&& RingId(kind, s.epoch) in w.rings
                   && Start(w.rings[RingId(kind, s.epoch)]) <= s.from <= s.to <= |w.rings[RingId(kind, s.epoch)].pushed|)
  }

  function SlicePayload(w: World, kind: Kind, s: Slice): Payload
    requires SliceOk(w, kind, s)
  {
    if s.NoSlice? then Payload("", [])
    else
      var pushed := w.rings[RingId(kind, s.epoch)].pushed;
      Payload(s.epoch, seq(s.to - s.from, i requires 0 <= i < s.to - s.from => Dict(pushed[s.from + i])))
  }

  function GiveUp(rings: map<RingId, Ring>, id: RingId, qs: set<nat>): map<RingId, Ring> {
    if id in rings then rings[id := rings[id].(givenUp := rings[id].givenUp + qs)] else rings
  }

  function SkipBefore(rings: map<RingId, Ring>, kind: Kind, s: Slice): map<RingId, Ring> {
    if s.NoSlice? || RingId(kind, s.epoch) !in rings then rings
    else GiveUp(rings, RingId(kind, s.epoch), Range(Start(rings[RingId(kind, s.epoch)]), s.from))
  }

  function Trimmed(p: Payload, n: nat): Payload {
    if n <= |p.items| then p.(items := p.items[n..]) else p.(items := [])
  }

  function TrimmedSeqs(p: Payload, n: nat): set<nat> {
    set i: nat | i < n && i < |p.items| && p.items[i].Dict? && p.items[i].entry.seqNo.IntSeq?
                 && p.items[i].entry.seqNo.value >= 0
      :: p.items[i].entry.seqNo.value as nat
  }

  /** No message, task, row or earlier append mentions the epoch (genEpoch's promise). */
  ghost predicate Unused(w: World, id: RingId) {
    && id !in w.rings
    && (forall f :: f in w.flushes ==> PayloadOf(f, id.kind).epoch != id.epoch)
    && (forall r :: r in w.receipts ==> EpochOf(r, id.kind) != id.epoch)
    && (forall t :: t in w.server.tasks ==> PayloadOf(w.server.tasks[t].flush, id.kind).epoch != id.epoch)
    && (forall i :: 0 <= i < |w.server.committed| ==> PayloadOf(w.server.committed[i], id.kind).epoch != id.epoch)
    && StreamOf(w.server.store, id.kind).epoch != id.epoch
  }

  function AckedBy(rings: map<RingId, Ring>, kind: Kind, r: Receipt): map<RingId, Ring> {
    var id := RingId(kind, EpochOf(r, kind));
    if id in rings && AckOf(r.ack, kind) > rings[id].acked
    then rings[id := rings[id].(acked := AckOf(r.ack, kind))]
    else rings
  }

  /** Where a payload starts. */
  function FirstSeq(items: seq<Item>): Option<nat> {
    if items != [] && items[0].Dict? && items[0].entry.seqNo.IntSeq? && items[0].entry.seqNo.value >= 0
    then Some(items[0].entry.seqNo.value) else None
  }

  /**
   * The seqs an append would move past without having been sent them: what lies between the
   * position it dedupes against and the payload's start. The server sees both before the append.
   */
  function Gap(p: Payload, position: int): set<nat> {
    if FirstSeq(p.items).None? then {} else Range(position + 1, FirstSeq(p.items).value)
  }

  ghost predicate Stored(r: Ring, epoch: string, history: seq<Chunk>, q: nat) {
    q < |r.pushed| && Holds(history, epoch, r.pushed[q])
  }

  ghost function NowLost(r: Ring, epoch: string, history: seq<Chunk>, gap: set<nat>): set<nat> {
    set q | q in r.lost + gap && !Stored(r, epoch, history, q)
  }

  /** What one append loses of the ring whose epoch its payload of this kind carries. */
  ghost function Strand(rings: map<RingId, Ring>, kind: Kind, before: Store, after: Store, flush: Flush): map<RingId, Ring> {
    var p := PayloadOf(flush, kind);
    var id := RingId(kind, p.epoch);
    if id !in rings then rings
    else
      var gap := Gap(p, Position(StreamOf(before, kind), p.epoch));
      rings[id := rings[id].(lost := NowLost(rings[id], p.epoch, StreamOf(after, kind).history, gap))]
  }

  predicate Committing(s: AppendLock.Server, step: AppendLock.Step) {
    step.Commit? && step.t in s.tasks && s.tasks[step.t].phase.AllRead?
  }

  /** A batch may lose entries; a finished task's result goes back when it leaves the lock. */
  ghost function Serve1(w: World, step: AppendLock.Step): World {
    var s' := AppendLock.Do(w.server, step);
    var answered := step.Exit? && step.t in w.server.tasks && w.server.tasks[step.t].phase.Exiting?
                    && w.server.tasks[step.t].phase.result.Some?;
    w.(server := s',
       rings := if !Committing(w.server, step) then w.rings
                else
                  var flush := w.server.tasks[step.t].flush;
                  Strand(Strand(w.rings, Log, w.server.store, s'.store, flush), Audit, w.server.store, s'.store, flush),
       receipts := w.receipts
                   + if answered then {ReceiptFor(w.server.tasks[step.t].flush, w.server.tasks[step.t].phase.result.value)} else {})
  }

  function Push1(r: Ring, body: nat, bytes: nat, keepFrom: nat): Ring {
    var n := |r.pushed|;
    var keep := if keepFrom > n + 1 then n + 1 else if keepFrom < r.oldest then r.oldest else keepFrom;
    r.(pushed := r.pushed + [Entry(IntSeq(n), body, bytes)],
       oldest := keep,
       givenUp := r.givenUp + set q | q in Range(r.oldest, keep) && q > r.acked)
  }

  /** One step; a step that is not possible changes nothing. */
  ghost function Do(w: World, step: Step): World {
    match step
    case NewRing(id) =>
      if id.epoch != "" && Unused(w, id) then w.(rings := w.rings[id := NEW_RING]) else w
    case Push(id, body, bytes, keepFrom) =>
      if id in w.rings then w.(rings := w.rings[id := Push1(w.rings[id], body, bytes, keepFrom)]) else w
    case Send(log, audit) =>
      if SliceOk(w, Log, log) && SliceOk(w, Audit, audit) && log.Slice?
      then w.(rings := SkipBefore(SkipBefore(w.rings, Log, log), Audit, audit),
              flushes := w.flushes + {Flush(SlicePayload(w, Log, log), SlicePayload(w, Audit, audit))})
      else w
    case Foreign(flush) =>
      if (forall kind :: RingId(kind, PayloadOf(flush, kind).epoch) !in w.rings)
      then w.(flushes := w.flushes + {flush})
      else w
    case Deliver(t, flush, trimLog, trimAudit) =>
      if flush in w.flushes
      then w.(server := AppendLock.Do(w.server, AppendLock.Arrive(t, Flush(Trimmed(flush.log, trimLog), Trimmed(flush.audit, trimAudit)))),
              rings := GiveUp(GiveUp(w.rings, RingId(Log, flush.log.epoch), TrimmedSeqs(flush.log, trimLog)),
                              RingId(Audit, flush.audit.epoch), TrimmedSeqs(flush.audit, trimAudit)))
      else w
    case Serve(s) => if s.Arrive? then w else Serve1(w, s)
    case Receive(r) =>
      if r in w.receipts then w.(rings := AckedBy(AckedBy(w.rings, Log, r), Audit, r)) else w
    case Restart(id) =>
      if id in w.rings then w.(rings := w.rings[id := w.rings[id].(acked := -1)]) else w
  }

  ghost function Run(steps: seq<Step>): World {
    if steps == [] then INITIAL else Do(Run(steps[..|steps| - 1]), steps[|steps| - 1])
  }

  // ── What is safe to forget ────────────────────────────────────────────────

  // Two accounts of what may be missing: what was let go on the way, and what an append moved past.
  datatype Excuse = WasGivenUp | WasLost

  function Excused(r: Ring, ex: Excuse): set<nat> {
    if ex.WasGivenUp? then r.givenUp else r.lost
  }

  /** Some chunk ever inserted under the ring's epoch holds the entry. */
  ghost predicate Inserted(w: World, id: RingId, e: Entry) {
    Holds(StreamOf(w.server.store, id.kind).history, id.epoch, e)
  }

  ghost predicate Safe(w: World, id: RingId, q: nat, ex: Excuse)
    requires id in w.rings
  {
    && q < |w.rings[id].pushed|
    && (q in Excused(w.rings[id], ex) || Inserted(w, id, w.rings[id].pushed[q]))
  }

  ghost predicate SafeUpTo(w: World, id: RingId, n: int, ex: Excuse) {
    id in w.rings ==> forall q: nat :: q <= n ==> Safe(w, id, q, ex)
  }

  ghost predicate RingOk(w: World, id: RingId, ex: Excuse)
    requires id in w.rings
  {
    var r := w.rings[id];
    && id.epoch != ""
    && (forall q :: 0 <= q < |r.pushed| ==> r.pushed[q].seqNo == IntSeq(q))
    && -1 <= r.acked
    && r.oldest <= |r.pushed|
    && SafeUpTo(w, id, r.acked, ex)
    && (ex.WasGivenUp? ==> SafeUpTo(w, id, r.oldest - 1, ex))
  }

  /** A payload under a ring's epoch is a block of its entries; all before it is stored or was given up. */
  ghost predicate BlockAt(w: World, id: RingId, items: seq<Item>, from: nat, ex: Excuse)
    requires id in w.rings
  {
    && from + |items| <= |w.rings[id].pushed|
    && (forall i :: 0 <= i < |items| ==> items[i] == Dict(w.rings[id].pushed[from + i]))
    && (ex.WasGivenUp? ==> SafeUpTo(w, id, from - 1, ex))
  }

  ghost predicate PayloadOk(w: World, kind: Kind, p: Payload, ex: Excuse) {
    RingId(kind, p.epoch) in w.rings ==> exists from: nat :: BlockAt(w, RingId(kind, p.epoch), p.items, from, ex)
  }

  ghost predicate ReceiptOk(w: World, kind: Kind, r: Receipt, ex: Excuse) {
    SafeUpTo(w, RingId(kind, EpochOf(r, kind)), AckOf(r.ack, kind), ex)
  }

  ghost predicate TaskOk(w: World, kind: Kind, task: AppendLock.Task, ex: Excuse) {
    && PayloadOk(w, kind, PayloadOf(task.flush, kind), ex)
    && (AppendLock.ResultOf(task.phase).Some? ==>
          ReceiptOk(w, kind, ReceiptFor(task.flush, AppendLock.ResultOf(task.phase).value), ex))
  }

  ghost predicate RowOk(w: World, kind: Kind, ex: Excuse) {
    var s := StreamOf(w.server.store, kind);
    SafeUpTo(w, RingId(kind, s.epoch), s.lastSeq, ex)
  }

  ghost predicate Evidence(w: World, ex: Excuse) {
    && (forall id :: id in w.rings ==> RingOk(w, id, ex))
    && (forall kind :: RowOk(w, kind, ex))
    && (forall f, kind :: f in w.flushes ==> PayloadOk(w, kind, PayloadOf(f, kind), ex))
    && (forall t, kind :: t in w.server.tasks ==> TaskOk(w, kind, w.server.tasks[t], ex))
    && (forall r, kind :: r in w.receipts ==> ReceiptOk(w, kind, r, ex))
  }

  /** What counts as lost is not stored, and was given up by someone. */
  ghost predicate LostOk(w: World) {
    forall id, q :: id in w.rings && q in w.rings[id].lost ==> LostAt(w, id, q)
  }

  ghost predicate LostAt(w: World, id: RingId, q: nat)
    requires id in w.rings
  {
    var r := w.rings[id];
    q < |r.pushed| && q in r.givenUp && !Inserted(w, id, r.pushed[q])
  }

  ghost predicate Inv(w: World) {
    AppendLock.Inv(w.server) && Evidence(w, WasGivenUp) && Evidence(w, WasLost) && LostOk(w)
  }

  // ── Safety is never lost ──────────────────────────────────────────────────

  /** A lost entry stays lost unless it is stored after all. */
  ghost predicate LostStays(w: World, id: RingId, q: nat) {
    id in w.rings ==> q in w.rings[id].lost || Stored(w.rings[id], id.epoch, StreamOf(w.server.store, id.kind).history, q)
  }

  ghost predicate Grows(w: World, w': World) {
    && w'.rings.Keys == w.rings.Keys
    && (forall id :: id in w.rings ==> w.rings[id].pushed <= w'.rings[id].pushed
                                       && w.rings[id].givenUp <= w'.rings[id].givenUp)
    && (forall id, q :: id in w.rings && q in w.rings[id].lost ==> LostStays(w', id, q))
    && (forall kind :: StreamOf(w.server.store, kind).history <= StreamOf(w'.server.store, kind).history)
  }

  lemma SafeGrows(w: World, w': World, id: RingId, n: int, ex: Excuse)
    requires Grows(w, w') && SafeUpTo(w, id, n, ex)
    ensures SafeUpTo(w', id, n, ex)
  {
    if id in w'.rings {
      forall q: nat | q <= n ensures Safe(w', id, q, ex) {
        assert Safe(w, id, q, ex);
        if q in w.rings[id].lost { assert LostStays(w', id, q); }
        if q !in Excused(w.rings[id], ex) {
          HoldsGrows(StreamOf(w.server.store, id.kind).history, StreamOf(w'.server.store, id.kind).history,
                     id.epoch, w.rings[id].pushed[q]);
        }
      }
    }
  }

  lemma PayloadGrows(w: World, w': World, kind: Kind, p: Payload, ex: Excuse)
    requires Grows(w, w') && PayloadOk(w, kind, p, ex)
    ensures PayloadOk(w', kind, p, ex)
  {
    var id := RingId(kind, p.epoch);
    if id in w.rings {
      var from: nat :| BlockAt(w, id, p.items, from, ex);
      if ex.WasGivenUp? { SafeGrows(w, w', id, from - 1, ex); }
      assert BlockAt(w', id, p.items, from, ex);
    }
  }

  lemma TaskGrows(w: World, w': World, kind: Kind, task: AppendLock.Task, ex: Excuse)
    requires Grows(w, w') && TaskOk(w, kind, task, ex)
    ensures TaskOk(w', kind, task, ex)
  {
    PayloadGrows(w, w', kind, PayloadOf(task.flush, kind), ex);
    if AppendLock.ResultOf(task.phase).Some? {
      var r := ReceiptFor(task.flush, AppendLock.ResultOf(task.phase).value);
      SafeGrows(w, w', RingId(kind, EpochOf(r, kind)), AckOf(r.ack, kind), ex);
    }
  }

  /** Everything the invariant says of messages, tasks and rows survives growth. */
  lemma EvidenceGrows(w: World, w': World, ex: Excuse)
    requires Evidence(w, ex) && Grows(w, w')
    ensures forall f, kind :: f in w.flushes ==> PayloadOk(w', kind, PayloadOf(f, kind), ex)
    ensures forall t, kind :: t in w.server.tasks ==> TaskOk(w', kind, w.server.tasks[t], ex)
    ensures forall r, kind :: r in w.receipts ==> ReceiptOk(w', kind, r, ex)
    ensures forall kind :: SafeUpTo(w', RingId(kind, StreamOf(w.server.store, kind).epoch), StreamOf(w.server.store, kind).lastSeq, ex)
    ensures forall id :: id in w.rings ==> SafeUpTo(w', id, w.rings[id].acked, ex)
    ensures forall id :: id in w.rings && ex.WasGivenUp? ==> SafeUpTo(w', id, w.rings[id].oldest - 1, ex)
  {
    forall f, kind | f in w.flushes ensures PayloadOk(w', kind, PayloadOf(f, kind), ex) {
      PayloadGrows(w, w', kind, PayloadOf(f, kind), ex);
    }
    forall t, kind | t in w.server.tasks ensures TaskOk(w', kind, w.server.tasks[t], ex) {
      TaskGrows(w, w', kind, w.server.tasks[t], ex);
    }
    forall r, kind | r in w.receipts ensures ReceiptOk(w', kind, r, ex) {
      assert ReceiptOk(w, kind, r, ex);
      SafeGrows(w, w', RingId(kind, EpochOf(r, kind)), AckOf(r.ack, kind), ex);
    }
    forall kind
      ensures SafeUpTo(w', RingId(kind, StreamOf(w.server.store, kind).epoch), StreamOf(w.server.store, kind).lastSeq, ex)
    {
      assert RowOk(w, kind, ex);
      SafeGrows(w, w', RingId(kind, StreamOf(w.server.store, kind).epoch), StreamOf(w.server.store, kind).lastSeq, ex);
    }
    forall id | id in w.rings
      ensures SafeUpTo(w', id, w.rings[id].acked, ex)
      ensures ex.WasGivenUp? ==> SafeUpTo(w', id, w.rings[id].oldest - 1, ex)
    {
      assert RingOk(w, id, ex);
      SafeGrows(w, w', id, w.rings[id].acked, ex);
      if ex.WasGivenUp? { SafeGrows(w, w', id, w.rings[id].oldest - 1, ex); }
    }
  }

  // ── Client and network steps ──────────────────────────────────────────────

  lemma NewRingKeepsEvidence(w: World, id: RingId, ex: Excuse)
    requires Evidence(w, ex) && id.epoch != "" && Unused(w, id)
    ensures Evidence(Do(w, NewRing(id)), ex)
  {
    var w' := Do(w, NewRing(id));
    forall id', n | id' != id && SafeUpTo(w, id', n, ex) ensures SafeUpTo(w', id', n, ex) {
      SafeElsewhere(w, w', id, id', n, ex);
    }
    forall id' | id' in w'.rings ensures RingOk(w', id', ex) {
      if id' != id { assert RingOk(w, id', ex); }
    }
    forall kind ensures RowOk(w', kind, ex) { assert RowOk(w, kind, ex); }
    forall kind, p: Payload | PayloadOk(w, kind, p, ex) && RingId(kind, p.epoch) != id ensures PayloadOk(w', kind, p, ex) {
      if RingId(kind, p.epoch) in w.rings {
        var from: nat :| BlockAt(w, RingId(kind, p.epoch), p.items, from, ex);
        assert BlockAt(w', RingId(kind, p.epoch), p.items, from, ex);
      }
    }
    forall t, kind | t in w'.server.tasks ensures TaskOk(w', kind, w'.server.tasks[t], ex) {
      assert TaskOk(w, kind, w.server.tasks[t], ex);
    }
    forall r, kind | r in w'.receipts ensures ReceiptOk(w', kind, r, ex) {
      assert ReceiptOk(w, kind, r, ex);
    }
  }

  lemma SafeElsewhere(w: World, w': World, id: RingId, id': RingId, n: int, ex: Excuse)
    requires w'.server == w.server && w'.rings == w.rings[id := NEW_RING]
    requires id' != id && SafeUpTo(w, id', n, ex)
    ensures SafeUpTo(w', id', n, ex)
  {
    if id' in w'.rings {
      forall q: nat | q <= n ensures Safe(w', id', q, ex) {
        assert Safe(w, id', q, ex);
      }
    }
  }

  lemma PushKeepsEvidence(w: World, id: RingId, body: nat, bytes: nat, keepFrom: nat, ex: Excuse)
    requires Evidence(w, ex) && id in w.rings
    ensures Evidence(Do(w, Push(id, body, bytes, keepFrom)), ex)
  {
    var w' := Do(w, Push(id, body, bytes, keepFrom));
    assert Grows(w, w');
    EvidenceGrows(w, w', ex);
    var r, r' := w.rings[id], w'.rings[id];
    assert RingOk(w, id, ex);
    forall q: nat | ex.WasGivenUp? && q <= r'.oldest - 1 ensures Safe(w', id, q, ex) {
      if q > r.oldest - 1 && q > r.acked {
        assert q in Range(r.oldest, r'.oldest);
      }
    }
    forall id' | id' in w'.rings ensures RingOk(w', id', ex) {
      assert RingOk(w, id', ex);
    }
  }

  lemma RingsGrowKeepsEvidence(w: World, w': World, ex: Excuse)
    requires Evidence(w, ex) && Grows(w, w')
    requires w'.server == w.server && w'.receipts == w.receipts && w.flushes <= w'.flushes
    requires forall id :: id in w.rings ==> w'.rings[id].pushed == w.rings[id].pushed && w'.rings[id].oldest == w.rings[id].oldest
    requires forall id :: id in w.rings ==> -1 <= w'.rings[id].acked && SafeUpTo(w, id, w'.rings[id].acked, ex)
    requires forall f, kind :: f in w'.flushes - w.flushes ==> PayloadOk(w', kind, PayloadOf(f, kind), ex)
    ensures Evidence(w', ex)
  {
    EvidenceGrows(w, w', ex);
    forall id | id in w'.rings ensures RingOk(w', id, ex) {
      assert RingOk(w, id, ex);
      SafeGrows(w, w', id, w'.rings[id].acked, ex);
    }
  }

  lemma SlicePayloadOk(w: World, w': World, kind: Kind, s: Slice, ex: Excuse)
    requires Evidence(w, ex) && SliceOk(w, kind, s)
    requires Grows(w, w') && forall id :: id in w.rings ==> w'.rings[id].pushed == w.rings[id].pushed
    requires s.Slice? ==> Range(Start(w.rings[RingId(kind, s.epoch)]), s.from) <= w'.rings[RingId(kind, s.epoch)].givenUp
    ensures PayloadOk(w', kind, SlicePayload(w, kind, s), ex)
  {
    if s.NoSlice? {
      assert RingId(kind, "") !in w.rings;
    } else {
      var id := RingId(kind, s.epoch);
      assert RingOk(w, id, ex);
      EvidenceGrows(w, w', ex);
      forall q: nat | ex.WasGivenUp? && q <= s.from - 1 ensures Safe(w', id, q, ex) {
        if q >= Start(w.rings[id]) { assert q in Range(Start(w.rings[id]), s.from); }
      }
      assert BlockAt(w', id, SlicePayload(w, kind, s).items, s.from, ex);
    }
  }

  lemma SendKeepsEvidence(w: World, log: Slice, audit: Slice, ex: Excuse)
    requires Evidence(w, ex) && SliceOk(w, Log, log) && SliceOk(w, Audit, audit) && log.Slice?
    ensures Evidence(Do(w, Send(log, audit)), ex)
  {
    var w' := Do(w, Send(log, audit));
    forall id | id in w.rings
      ensures id in w'.rings && w'.rings[id].pushed == w.rings[id].pushed && w'.rings[id].oldest == w.rings[id].oldest
              && w'.rings[id].acked == w.rings[id].acked && w.rings[id].givenUp <= w'.rings[id].givenUp
    {
    }
    assert Grows(w, w');
    SlicePayloadOk(w, w', Log, log, ex);
    SlicePayloadOk(w, w', Audit, audit, ex);
    forall id | id in w.rings ensures -1 <= w'.rings[id].acked && SafeUpTo(w, id, w'.rings[id].acked, ex) {
      assert RingOk(w, id, ex);
    }
    RingsGrowKeepsEvidence(w, w', ex);
  }

  lemma ReceiveKeepsEvidence(w: World, r: Receipt, ex: Excuse)
    requires Evidence(w, ex) && r in w.receipts
    ensures Evidence(Do(w, Receive(r)), ex)
  {
    var w' := Do(w, Receive(r));
    assert ReceiptOk(w, Log, r, ex) && ReceiptOk(w, Audit, r, ex);
    forall id | id in w.rings
      ensures id in w'.rings && w'.rings[id] == w.rings[id].(acked := w'.rings[id].acked)
      ensures -1 <= w'.rings[id].acked && SafeUpTo(w, id, w'.rings[id].acked, ex)
    {
      assert RingOk(w, id, ex);
    }
    assert Grows(w, w');
    RingsGrowKeepsEvidence(w, w', ex);
  }

  // ── Server steps ──────────────────────────────────────────────────────────

  lemma TrimmedOk(w: World, w': World, kind: Kind, p: Payload, n: nat, ex: Excuse)
    requires Evidence(w, ex) && PayloadOk(w, kind, p, ex) && Grows(w, w')
    requires RingId(kind, p.epoch) in w.rings ==> TrimmedSeqs(p, n) <= w'.rings[RingId(kind, p.epoch)].givenUp
    ensures PayloadOk(w', kind, Trimmed(p, n), ex)
  {
    var id := RingId(kind, p.epoch);
    if id in w.rings {
      assert RingOk(w, id, ex);
      var from: nat :| BlockAt(w, id, p.items, from, ex);
      hide Evidence, RingOk, BlockAt, Grows, TrimmedSeqs;
      TrimmedBlock(w, w', id, p, n, from, ex);
    }
  }

  lemma TrimmedBlock(w: World, w': World, id: RingId, p: Payload, n: nat, from: nat, ex: Excuse)
    requires id in w.rings && RingOk(w, id, ex) && BlockAt(w, id, p.items, from, ex) && Grows(w, w')
    requires id in w'.rings && TrimmedSeqs(p, n) <= w'.rings[id].givenUp
    ensures BlockAt(w', id, Trimmed(p, n).items, from + (if n <= |p.items| then n else |p.items|), ex)
  {
    var cut := if n <= |p.items| then n else |p.items|;
    if ex.WasGivenUp? {
      SafeGrows(w, w', id, from - 1, ex);
      forall q: nat | q <= from + cut - 1 ensures Safe(w', id, q, ex) {
        if q >= from { TrimmedIsGivenUp(w, w', id, p, n, from, q, ex); }
      }
    }
    hide Stored, Inserted, TrimmedSeqs;
  }

  lemma TrimmedIsGivenUp(w: World, w': World, id: RingId, p: Payload, n: nat, from: nat, q: nat, ex: Excuse)
    requires id in w.rings && RingOk(w, id, ex) && BlockAt(w, id, p.items, from, ex) && Grows(w, w')
    requires id in w'.rings && TrimmedSeqs(p, n) <= w'.rings[id].givenUp
    requires from <= q < from + n && q < from + |p.items|
    ensures q < |w'.rings[id].pushed| && q in w'.rings[id].givenUp
  {
    var i: nat := q - from;
    assert p.items[i] == Dict(w.rings[id].pushed[q]) && w.rings[id].pushed[q].seqNo == IntSeq(q);
    assert p.items[i].entry.seqNo.value as nat in TrimmedSeqs(p, n);
    hide Stored, Inserted, LostStays, SafeUpTo;
  }

  lemma DeliverEffect(w: World, t: nat, flush: Flush, trimLog: nat, trimAudit: nat)
    requires flush in w.flushes
    ensures var w' := Do(w, Deliver(t, flush, trimLog, trimAudit));
            var trimmed := Flush(Trimmed(flush.log, trimLog), Trimmed(flush.audit, trimAudit));
            && Grows(w, w') && w'.receipts == w.receipts && w'.flushes == w.flushes && w'.server.store == w.server.store
            && (forall u :: u in w'.server.tasks ==>
                  || (u in w.server.tasks && w'.server.tasks[u] == w.server.tasks[u])
                  || (w'.server.tasks[u].flush == trimmed && AppendLock.ResultOf(w'.server.tasks[u].phase).None?))
            && (forall id :: id in w.rings ==> w'.rings[id] == w.rings[id].(givenUp := w'.rings[id].givenUp))
            && (RingId(Log, flush.log.epoch) in w.rings ==>
                  TrimmedSeqs(flush.log, trimLog) <= w'.rings[RingId(Log, flush.log.epoch)].givenUp)
            && (RingId(Audit, flush.audit.epoch) in w.rings ==>
                  TrimmedSeqs(flush.audit, trimAudit) <= w'.rings[RingId(Audit, flush.audit.epoch)].givenUp)
  {
    AppendLock.ArriveEffect(w.server, t, Flush(Trimmed(flush.log, trimLog), Trimmed(flush.audit, trimAudit)));
    hide AppendLock.Do, TrimmedSeqs, Trimmed, Stored;
  }

  lemma DeliverKeepsEvidence(w: World, t: nat, flush: Flush, trimLog: nat, trimAudit: nat, ex: Excuse)
    requires Evidence(w, ex) && flush in w.flushes
    ensures Evidence(Do(w, Deliver(t, flush, trimLog, trimAudit)), ex)
  {
    var w' := Do(w, Deliver(t, flush, trimLog, trimAudit));
    DeliverEffect(w, t, flush, trimLog, trimAudit);
    hide Do, BlockAt, Safe, Grows, TrimmedSeqs, Trimmed;
    EvidenceGrows(w, w', ex);
    assert PayloadOk(w, Log, PayloadOf(flush, Log), ex) && PayloadOk(w, Audit, PayloadOf(flush, Audit), ex);
    TrimmedOk(w, w', Log, flush.log, trimLog, ex);
    TrimmedOk(w, w', Audit, flush.audit, trimAudit, ex);
    forall id | id in w'.rings ensures RingOk(w', id, ex) {
      assert RingOk(w, id, ex);
    }
  }

  /** What the rings are after an append: nothing changes but what it lost of the rings it names. */
  lemma StrandEffect(rings: map<RingId, Ring>, before: Store, after: Store, flush: Flush)
    ensures var rings' := Strand(Strand(rings, Log, before, after, flush), Audit, before, after, flush);
            && rings'.Keys == rings.Keys
            && forall id :: id in rings ==> rings'[id] == StrandedRing(rings[id], id, before, after, flush)
  {
    hide NowLost, Gap, Position;
  }

  ghost function StrandedRing(r: Ring, id: RingId, before: Store, after: Store, flush: Flush): Ring {
    var p := PayloadOf(flush, id.kind);
    if id.epoch != p.epoch then r
    else r.(lost := NowLost(r, id.epoch, StreamOf(after, id.kind).history,
                            Gap(p, Position(StreamOf(before, id.kind), id.epoch))))
  }

  ghost predicate AppendedTo(w: World, w': World, flush: Flush) {
    && w'.server.store == Append(w.server.store, flush).0
    && w'.rings.Keys == w.rings.Keys
    && forall id :: id in w.rings ==>
         w'.rings[id] == StrandedRing(w.rings[id], id, w.server.store, w'.server.store, flush)
  }

  /** After an append under a ring's epoch, everything up to the new position is stored or excused. */
  lemma AppendIsSafe(w: World, w': World, id: RingId, flush: Flush, from: nat, position: int, ex: Excuse)
    requires Evidence(w, ex) && Grows(w, w') && id in w.rings && id.epoch == PayloadOf(flush, id.kind).epoch
    requires BlockAt(w, id, PayloadOf(flush, id.kind).items, from, ex)
    requires AppendedTo(w, w', flush)
    requires position == Position(StreamOf(w.server.store, id.kind), id.epoch)
    ensures SafeUpTo(w', id, MaxSeq(PayloadOf(flush, id.kind).items, position), ex)
  {
    hide Append, Fresh;
    var s, items := StreamOf(w.server.store, id.kind), PayloadOf(flush, id.kind).items;
    assert RingOk(w, id, ex) && RowOk(w, id.kind, ex);
    if ex.WasGivenUp? { SafeGrows(w, w', id, from - 1, ex); }
    if s.epoch == id.epoch {
      SafeGrows(w, w', id, s.lastSeq, ex);
    }
    MaxSeqIsMax(items, position);
    var max := MaxSeq(items, position);
    forall q: nat | q <= max ensures Safe(w', id, q, ex) {
      if q > position {
        var i :| 0 <= i < |items| && items[i].Dict? && items[i].entry.seqNo == IntSeq(max);
        assert w.rings[id].pushed[from + i].seqNo == IntSeq(from + i);
        var e := w.rings[id].pushed[q];
        if q >= from {
          assert items[q - from] == Dict(e) && e.seqNo == IntSeq(q);
          FreshIsInserted(w.server.store, flush, id.kind, e);
        } else if ex.WasLost? {
          InTheGap(w, id, PayloadOf(flush, id.kind), from, position, q, ex);
        }
      }
    }
  }

  lemma InTheGap(w: World, id: RingId, p: Payload, from: nat, position: int, q: nat, ex: Excuse)
    requires id in w.rings && BlockAt(w, id, p.items, from, ex) && p.items != [] && RingOk(w, id, ex)
    ensures q in Gap(p, position) <==> position < q < from
  {
    assert p.items[0] == Dict(w.rings[id].pushed[from]);
  }

  lemma CommitIsSafe(w: World, w': World, kind: Kind, flush: Flush, ex: Excuse)
    requires Evidence(w, ex) && Grows(w, w') && PayloadOk(w, kind, PayloadOf(flush, kind), ex)
    requires AppendedTo(w, w', flush)
    ensures RowOk(w', kind, ex)
    ensures ReceiptOk(w', kind, ReceiptFor(flush, Append(w.server.store, flush).1), ex)
  {
    var p := PayloadOf(flush, kind);
    var id := RingId(kind, p.epoch);
    AppendMeaning(w.server.store, flush, kind);
    hide Append, Fresh, StrandedRing;
    if id in w.rings {
      assert RingOk(w, id, ex);
      var from: nat :| BlockAt(w, id, p.items, from, ex);
      AppendIsSafe(w, w', id, flush, from, Position(StreamOf(w.server.store, kind), p.epoch), ex);
    } else if kind == Audit && p.epoch == "" {
      assert RowOk(w, kind, ex);
      SafeGrows(w, w', RingId(kind, StreamOf(w.server.store, kind).epoch), StreamOf(w.server.store, kind).lastSeq, ex);
    }
  }

  lemma StrandedStays(r: Ring, id: RingId, before: Store, after: Store, flush: Flush, q: nat)
    requires q in r.lost
    ensures var r' := StrandedRing(r, id, before, after, flush);
            q in r'.lost || Stored(r', id.epoch, StreamOf(after, id.kind).history, q)
  {
    hide Gap;
  }

  lemma CommitGrows(w: World, w': World, flush: Flush)
    requires AppendedTo(w, w', flush)
    ensures Grows(w, w')
  {
    forall kind ensures StreamOf(w.server.store, kind).history <= StreamOf(w'.server.store, kind).history {
      AppendMeaning(w.server.store, flush, kind);
    }
    hide Append, NowLost, Stored, StreamOf;
    forall id, q | id in w.rings && q in w.rings[id].lost ensures LostStays(w', id, q) {
      StrandedStays(w.rings[id], id, w.server.store, w'.server.store, flush, q);
    }
  }

  lemma CommitKeepsEvidence(w: World, w': World, t: nat, task: AppendLock.Task, ex: Excuse)
    requires Evidence(w, ex) && t in w.server.tasks && task.flush == w.server.tasks[t].flush
    requires AppendedTo(w, w', task.flush) && w'.flushes == w.flushes && w'.receipts == w.receipts
    requires w'.server.tasks == w.server.tasks[t := task]
    requires AppendLock.ResultOf(task.phase) == Some(Append(w.server.store, task.flush).1)
    ensures Evidence(w', ex)
  {
    CommitGrows(w, w', task.flush);
    EvidenceGrows(w, w', ex);
    hide Append;
    forall kind ensures RowOk(w', kind, ex) && TaskOk(w', kind, task, ex) {
      assert TaskOk(w, kind, w.server.tasks[t], ex);
      assert TaskOk(w', kind, w.server.tasks[t], ex);
      CommitIsSafe(w, w', kind, task.flush, ex);
    }
    forall id | id in w'.rings ensures RingOk(w', id, ex) {
      assert RingOk(w, id, ex);
    }
  }

  /** Any other step of a task leaves the store alone. */
  lemma QuietStepKeepsEvidence(w: World, step: AppendLock.Step, ex: Excuse)
    requires Evidence(w, ex) && !step.Arrive?
    requires !(step.Commit? && step.t in w.server.tasks && w.server.tasks[step.t].phase.AllRead?)
    ensures Evidence(Do(w, Serve(step)), ex)
  {
    var w' := Do(w, Serve(step));
    AppendLock.QuietEffect(w.server, step);
    assert Grows(w, w');
    EvidenceGrows(w, w', ex);
    forall u, kind | u in w'.server.tasks ensures TaskOk(w', kind, w'.server.tasks[u], ex) {
      assert TaskOk(w', kind, w.server.tasks[u], ex);
    }
    forall r, kind | r in w'.receipts ensures ReceiptOk(w', kind, r, ex) {
      if r !in w.receipts { assert TaskOk(w', kind, w.server.tasks[step.t], ex); }
    }
    forall id | id in w'.rings ensures RingOk(w', id, ex) {
      assert RingOk(w, id, ex);
    }
  }

  lemma ClientStepKeepsEvidence(w: World, step: Step, ex: Excuse)
    requires Evidence(w, ex) && !step.Deliver? && !step.Serve?
    ensures Evidence(Do(w, step), ex) && Do(w, step).server == w.server
  {
    match step
    case NewRing(id) => if id.epoch != "" && Unused(w, id) { NewRingKeepsEvidence(w, id, ex); }
    case Push(id, body, bytes, keepFrom) => if id in w.rings { PushKeepsEvidence(w, id, body, bytes, keepFrom, ex); }
    case Send(log, audit) =>
      if SliceOk(w, Log, log) && SliceOk(w, Audit, audit) && log.Slice? { SendKeepsEvidence(w, log, audit, ex); }
    case Foreign(flush) =>
      if forall kind :: RingId(kind, PayloadOf(flush, kind).epoch) !in w.rings {
        forall id | id in w.rings ensures -1 <= w.rings[id].acked && SafeUpTo(w, id, w.rings[id].acked, ex) {
          assert RingOk(w, id, ex);
        }
        RingsGrowKeepsEvidence(w, Do(w, step), ex);
      }
    case Receive(r) => if r in w.receipts { ReceiveKeepsEvidence(w, r, ex); }
    case Restart(id) =>
      if id in w.rings {
        forall id' | id' in w.rings ensures -1 <= w.rings[id'].acked && SafeUpTo(w, id', w.rings[id'].acked, ex) {
          assert RingOk(w, id', ex);
        }
        RingsGrowKeepsEvidence(w, Do(w, step), ex);
      }
  }

  lemma CommitStep(w: World, w': World, t: nat)
    requires AppendLock.Inv(w.server) && t in w.server.tasks && w.server.tasks[t].phase.AllRead?
    requires w' == Do(w, Serve(AppendLock.Commit(t)))
    ensures w'.server == AppendLock.Do(w.server, AppendLock.Commit(t))
    ensures AppendedTo(w, w', w.server.tasks[t].flush) && w'.flushes == w.flushes && w'.receipts == w.receipts
  {
    AppendLock.CommitEffect(w.server, t);
    hide AppendLock.Do, AppendLock.Inv, Append, Strand, StrandedRing, CommitBatch, Gap, Position;
    var flush, after := w.server.tasks[t].flush, AppendLock.Do(w.server, AppendLock.Commit(t)).store;
    StrandEffect(w.rings, w.server.store, after, flush);
    assert w'.rings == Strand(Strand(w.rings, Log, w.server.store, after, flush), Audit, w.server.store, after, flush);
    assert w.receipts + {} == w.receipts;
  }

  lemma CommitStepKeepsEvidence(w: World, w': World, t: nat, ex: Excuse)
    requires AppendLock.Inv(w.server) && Evidence(w, ex)
    requires t in w.server.tasks && w.server.tasks[t].phase.AllRead?
    requires w' == Do(w, Serve(AppendLock.Commit(t)))
    ensures Evidence(w', ex)
  {
    hide Do, Evidence, AppendedTo;
    CommitStep(w, w', t);
    AppendLock.CommitEffect(w.server, t);
    CommitKeepsEvidence(w, w', t, w'.server.tasks[t], ex);
  }

  lemma ServeKeepsEvidence(w: World, step: AppendLock.Step, ex: Excuse)
    requires AppendLock.Inv(w.server) && Evidence(w, ex) && !step.Arrive?
    ensures Evidence(Do(w, Serve(step)), ex)
  {
    hide Evidence, AppendLock.Inv, Do;
    if Committing(w.server, step) {
      CommitStepKeepsEvidence(w, Do(w, Serve(step)), step.t, ex);
    } else {
      QuietStepKeepsEvidence(w, step, ex);
    }
  }

  lemma DoKeepsEvidence(w: World, step: Step, ex: Excuse)
    requires AppendLock.Inv(w.server) && Evidence(w, ex)
    ensures Evidence(Do(w, step), ex)
  {
    hide Evidence, AppendLock.Inv;
    if step.Serve? {
      if !step.step.Arrive? { ServeKeepsEvidence(w, step.step, ex); }
    } else if step.Deliver? {
      if step.flush in w.flushes { DeliverKeepsEvidence(w, step.t, step.flush, step.trimLog, step.trimAudit, ex); }
    } else {
      ClientStepKeepsEvidence(w, step, ex);
    }
  }

  lemma DoKeepsServer(w: World, step: Step)
    requires AppendLock.Inv(w.server)
    ensures AppendLock.Inv(Do(w, step).server)
  {
    hide AppendLock.Inv, AppendLock.Do;
    if step.Serve? {
      AppendLock.DoKeepsInv(w.server, step.step);
    } else if step.Deliver? {
      AppendLock.DoKeepsInv(w.server, AppendLock.Arrive(
        step.t, Flush(Trimmed(step.flush.log, step.trimLog), Trimmed(step.flush.audit, step.trimAudit))));
    }
  }

  // ── What counts as lost is not stored ─────────────────────────────────────

  lemma QuietServer(w: World, step: Step)
    requires !(step.Serve? && Committing(w.server, step.step))
    ensures var w' := Do(w, step);
            w'.server.store == w.server.store && w'.server.committed == w.server.committed
  {
    hide AppendLock.Do, GiveUp, SkipBefore, AckedBy, Unused, Push1, Range;
    if step.Serve? && !step.step.Arrive? {
      AppendLock.QuietEffect(w.server, step.step);
    } else if step.Deliver? {
      AppendLock.ArriveEffect(w.server, step.t, Flush(Trimmed(step.flush.log, step.trimLog), Trimmed(step.flush.audit, step.trimAudit)));
    }
  }

  ghost predicate Grew(rings: map<RingId, Ring>, rings': map<RingId, Ring>) {
    && rings'.Keys == rings.Keys
    && forall id :: id in rings ==> rings[id].pushed <= rings'[id].pushed && rings[id].givenUp <= rings'[id].givenUp
                                    && rings[id].lost == rings'[id].lost
  }

  lemma GiveUpGrew(rings: map<RingId, Ring>, id: RingId, qs: set<nat>)
    ensures Grew(rings, GiveUp(rings, id, qs))
  {
  }

  lemma SkipBeforeGrew(rings: map<RingId, Ring>, kind: Kind, s: Slice)
    ensures Grew(rings, SkipBefore(rings, kind, s))
  {
    hide GiveUp, Range;
    if s.Slice? && RingId(kind, s.epoch) in rings {
      GiveUpGrew(rings, RingId(kind, s.epoch), Range(Start(rings[RingId(kind, s.epoch)]), s.from));
    }
  }

  lemma AckedByGrew(rings: map<RingId, Ring>, kind: Kind, r: Receipt)
    ensures Grew(rings, AckedBy(rings, kind, r))
  {
  }

  lemma GrewTwice(a: map<RingId, Ring>, b: map<RingId, Ring>, c: map<RingId, Ring>)
    requires Grew(a, b) && Grew(b, c)
    ensures Grew(a, c)
  {
  }

  lemma OneRingGrew(w: World, step: Step)
    requires !step.NewRing? && !step.Send? && !step.Deliver? && !step.Receive?
    requires !(step.Serve? && Committing(w.server, step.step))
    ensures Grew(w.rings, Do(w, step).rings)
  {
    hide AppendLock.Do, Range;
  }

  lemma RingsGrow(w: World, step: Step)
    requires !step.NewRing? && !(step.Serve? && Committing(w.server, step.step))
    ensures Grew(w.rings, Do(w, step).rings)
  {
    hide AppendLock.Do, Range, SliceOk, Trimmed, TrimmedSeqs, GiveUp, SkipBefore, AckedBy, Grew, SlicePayload;
    match step {
      case Send(log, audit) =>
        var once := SkipBefore(w.rings, Log, log);
        SkipBeforeGrew(w.rings, Log, log);
        SkipBeforeGrew(once, Audit, audit);
        GrewTwice(w.rings, once, SkipBefore(once, Audit, audit));
        GrewSame(w.rings);
      case Deliver(t, flush, trimLog, trimAudit) =>
        var once := GiveUp(w.rings, RingId(Log, flush.log.epoch), TrimmedSeqs(flush.log, trimLog));
        GiveUpGrew(w.rings, RingId(Log, flush.log.epoch), TrimmedSeqs(flush.log, trimLog));
        GiveUpGrew(once, RingId(Audit, flush.audit.epoch), TrimmedSeqs(flush.audit, trimAudit));
        GrewTwice(w.rings, once, GiveUp(once, RingId(Audit, flush.audit.epoch), TrimmedSeqs(flush.audit, trimAudit)));
        GrewSame(w.rings);
      case Receive(r) =>
        var once := AckedBy(w.rings, Log, r);
        AckedByGrew(w.rings, Log, r);
        AckedByGrew(once, Audit, r);
        GrewTwice(w.rings, once, AckedBy(once, Audit, r));
        GrewSame(w.rings);
      case _ => OneRingGrew(w, step);
    }
  }

  lemma GrewSame(rings: map<RingId, Ring>)
    ensures Grew(rings, rings)
  {
  }

  lemma QuietStep(w: World, step: Step)
    requires !step.NewRing?
    requires !(step.Serve? && Committing(w.server, step.step))
    ensures var w' := Do(w, step);
            && Grows(w, w') && Grew(w.rings, w'.rings)
            && w'.server.store == w.server.store && w'.server.committed == w.server.committed
  {
    QuietServer(w, step);
    RingsGrow(w, step);
    hide Do;
  }

  /** Only an append changes what is lost or stored. */
  lemma QuietStepKeepsLost(w: World, step: Step)
    requires LostOk(w) && !(step.Serve? && Committing(w.server, step.step))
    ensures LostOk(Do(w, step))
  {
    var w' := Do(w, step);
    if step.NewRing? {
      forall id, q | id in w'.rings && q in w'.rings[id].lost ensures LostAt(w', id, q) {
        assert LostAt(w, id, q);
      }
    } else {
      QuietStep(w, step);
      hide Do;
      forall id, q | id in w'.rings && q in w'.rings[id].lost ensures LostAt(w', id, q) {
        assert LostAt(w, id, q);
      }
    }
  }

  /** A new chunk belongs to its flush's epoch and kind. */
  lemma HeldElsewhere(store: Store, flush: Flush, id: RingId, e: Entry)
    requires PayloadOf(flush, id.kind).epoch != id.epoch
    requires Holds(StreamOf(Append(store, flush).0, id.kind).history, id.epoch, e)
    ensures Holds(StreamOf(store, id.kind).history, id.epoch, e)
  {
    AppendMeaning(store, flush, id.kind);
    var s, s' := StreamOf(store, id.kind), StreamOf(Append(store, flush).0, id.kind);
    hide Append;
    var i :| 0 <= i < |s'.history| && s'.history[i].origin == id.epoch && e in s'.history[i].entries;
    assert i < |s.history| && s.history[i] == s'.history[i];
  }

  lemma CommitKeepsLost(w: World, w': World, flush: Flush)
    requires LostOk(w) && AppendedTo(w, w', flush) && Evidence(w, WasGivenUp) && Grows(w, w')
    requires forall kind :: PayloadOk(w, kind, PayloadOf(flush, kind), WasGivenUp)
    ensures LostOk(w')
  {
    hide Append;
    forall id, q | id in w'.rings && q in w'.rings[id].lost ensures LostAt(w', id, q) {
      var r, p := w.rings[id], PayloadOf(flush, id.kind);
      if q in r.lost { assert LostAt(w, id, q); }
      if id.epoch != p.epoch {
        if Inserted(w', id, r.pushed[q]) { HeldElsewhere(w.server.store, flush, id, r.pushed[q]); }
      } else if q !in r.lost {
        assert PayloadOk(w, id.kind, p, WasGivenUp) && RingOk(w, id, WasGivenUp);
        var from: nat :| BlockAt(w, id, p.items, from, WasGivenUp);
        InTheGap(w, id, p, from, Position(StreamOf(w.server.store, id.kind), id.epoch), q, WasGivenUp);
        SafeGrows(w, w', id, from - 1, WasGivenUp);
        assert Safe(w', id, q, WasGivenUp);
      }
    }
  }

  lemma DoKeepsLost(w: World, step: Step)
    requires Inv(w)
    ensures LostOk(Do(w, step))
  {
    if step.Serve? && Committing(w.server, step.step) {
      var t := step.step.t;
      CommitStep(w, Do(w, step), t);
      CommitGrows(w, Do(w, step), w.server.tasks[t].flush);
      forall kind ensures PayloadOk(w, kind, PayloadOf(w.server.tasks[t].flush, kind), WasGivenUp) {
        assert TaskOk(w, kind, w.server.tasks[t], WasGivenUp);
      }
      hide Do, AppendedTo, LostOk, Evidence;
      CommitKeepsLost(w, Do(w, step), w.server.tasks[t].flush);
    } else {
      QuietStepKeepsLost(w, step);
    }
  }

  lemma DoKeepsInv(w: World, step: Step)
    requires Inv(w)
    ensures Inv(Do(w, step))
  {
    hide Do, Evidence, AppendLock.Inv, LostOk;
    DoKeepsServer(w, step);
    DoKeepsEvidence(w, step, WasGivenUp);
    DoKeepsEvidence(w, step, WasLost);
    DoKeepsLost(w, step);
  }

  lemma {:induction false} RunKeepsInv(steps: seq<Step>)
    ensures Inv(Run(steps))
  {
    if steps == [] {
      AppendLock.RunKeepsInv([]);
    } else {
      RunKeepsInv(steps[..|steps| - 1]);
      DoKeepsInv(Run(steps[..|steps| - 1]), steps[|steps| - 1]);
    }
  }

  /**
   * No acked entry is lost unless an append moved past it: whatever is dropped, duplicated,
   * reordered or interleaved, an acked entry is in a chunk inserted under its epoch if and only
   * if it is not among the lost, which only a gap at an append adds to (LosesIff).
   */
  lemma NoAckedEntryLost(steps: seq<Step>, id: RingId, q: nat)
    requires id in Run(steps).rings && q <= Run(steps).rings[id].acked
    ensures var w := Run(steps);
            && q < |w.rings[id].pushed|
            && (Inserted(w, id, w.rings[id].pushed[q]) <==> q !in w.rings[id].lost)
  {
    RunKeepsInv(steps);
    var w := Run(steps);
    assert RingOk(w, id, WasLost);
    assert Safe(w, id, q, WasLost);
    if q in w.rings[id].lost { assert LostAt(w, id, q); }
  }
}
