/**
 * What an append loses and what it stores twice: both are decided by the position it dedupes
 * against and by where its payload starts, which the server knows before it appends.
 */
module SessionLoss {
  import opened Wrappers
  import opened Chunks
  import opened SessionStore
  import AppendLock
  import opened SessionProtocol

  // ── What one append inserts ───────────────────────────────────────────────

  /** A ring's entries carry their index as seq; past MAX_VALID_SEQ the server does not use it. */
  ghost predicate Numbered(pushed: seq<Entry>) {
    forall q :: 0 <= q < |pushed| ==> pushed[q].seqNo == IntSeq(q)
  }

  ghost predicate Usable(pushed: seq<Entry>) {
    Numbered(pushed) && |pushed| <= MAX_VALID_SEQ
  }

  /** A payload is a block of a ring's entries. */
  ghost predicate IsBlock(items: seq<Item>, pushed: seq<Entry>, from: nat) {
    && from + |items| <= |pushed|
    && forall i :: 0 <= i < |items| ==> items[i] == Dict(pushed[from + i])
  }

  /** The chunks an append inserts, oldest first. */
  function NewChunksOf(store: Store, flush: Flush, kind: Kind): seq<Chunk> {
    var s, s' := StreamOf(store, kind), StreamOf(Append(store, flush).0, kind);
    if |s.history| <= |s'.history| then s'.history[|s.history|..] else []
  }

  lemma AppendAdds(store: Store, flush: Flush, kind: Kind)
    requires PayloadOf(flush, kind).epoch != ""
    ensures var s, s', p := StreamOf(store, kind), StreamOf(Append(store, flush).0, kind), PayloadOf(flush, kind);
            var more := NewChunksOf(store, flush, kind);
            && s'.history == s.history + more && AllEntries(more) == Fresh(p.items, Position(s, p.epoch))
            && s'.epoch == p.epoch && s'.lastSeq == MaxSeq(p.items, Position(s, p.epoch))
            && forall i :: 0 <= i < |more| ==> more[i].origin == p.epoch
  {
    AppendMeaning(store, flush, kind);
    hide Append, Fresh, MaxSeq;
    var s, s', p := StreamOf(store, kind), StreamOf(Append(store, flush).0, kind), PayloadOf(flush, kind);
    TailEntries(s.history, s'.history, Fresh(p.items, Position(s, p.epoch)), p.epoch);
  }

  lemma TailEntries(h: seq<Chunk>, h': seq<Chunk>, kept: seq<Entry>, epoch: string)
    requires h <= h' && AllEntries(h') == AllEntries(h) + kept
    requires forall i :: |h| <= i < |h'| ==> h'[i].origin == epoch
    ensures var more := h'[|h|..];
            h' == h + more && AllEntries(more) == kept && forall i :: 0 <= i < |more| ==> more[i].origin == epoch
  {
    hide AllEntries;
    var more := h'[|h|..];
    AllEntriesAppend(h, more);
    assert h' == h + more;
    assert (AllEntries(h) + AllEntries(more))[|AllEntries(h)|..] == AllEntries(more);
  }

  lemma BlockMember(items: seq<Item>, pushed: seq<Entry>, from: nat, q: nat)
    requires Numbered(pushed) && q < |pushed| && IsBlock(items, pushed, from)
    ensures Dict(pushed[q]) in items <==> from <= q < from + |items|
  {
    if from <= q < from + |items| {
      assert items[q - from] == Dict(pushed[q]);
    } else {
      forall i | 0 <= i < |items| ensures items[i] != Dict(pushed[q]) {
        assert pushed[from + i].seqNo == IntSeq(from + i);
      }
    }
  }

  lemma NumberedAt(pushed: seq<Entry>, q: nat)
    requires Usable(pushed) && q < |pushed|
    ensures pushed[q].seqNo == IntSeq(q) && q < 9007199254740992
  {
    assert pushed[q].seqNo == IntSeq(q);
  }

  /** Under its epoch an append inserts of a block exactly the entries past the position. */
  lemma InsertsExactly(store: Store, flush: Flush, kind: Kind, pushed: seq<Entry>, from: nat, q: nat)
    requires Usable(pushed) && q < |pushed| && IsBlock(PayloadOf(flush, kind).items, pushed, from)
    requires PayloadOf(flush, kind).epoch != ""
    ensures var p := PayloadOf(flush, kind);
            pushed[q] in AllEntries(NewChunksOf(store, flush, kind))
            <==> from <= q < from + |p.items| && q > Position(StreamOf(store, kind), p.epoch)
  {
    var p := PayloadOf(flush, kind);
    AppendAdds(store, flush, kind);
    NumberedAt(pushed, q);
    hide Append, Fresh, MaxSeq, NewChunksOf, IsBlock, Numbered, Past, AllEntries, Position;
    FreshMembers(p.items, Position(StreamOf(store, kind), p.epoch), pushed[q]);
    BlockMember(p.items, pushed, from, q);
  }

  lemma {:induction false} ListedInChunk(chunks: seq<Chunk>, e: Entry)
    ensures e in AllEntries(chunks) <==> exists i :: 0 <= i < |chunks| && e in chunks[i].entries
  {
    if chunks != [] {
      var n := |chunks| - 1;
      ListedInChunk(chunks[..n], e);
      assert AllEntries(chunks) == AllEntries(chunks[..n]) + chunks[n].entries;
      if exists i :: 0 <= i < |chunks| && e in chunks[i].entries {
        var i :| 0 <= i < |chunks| && e in chunks[i].entries;
        if i < n { assert chunks[..n][i] == chunks[i]; }
      }
    }
  }

  lemma HoldsConcat(history: seq<Chunk>, more: seq<Chunk>, epoch: string, e: Entry)
    requires forall i :: 0 <= i < |more| ==> more[i].origin == epoch
    ensures Holds(history + more, epoch, e) <==> Holds(history, epoch, e) || e in AllEntries(more)
  {
    ListedInChunk(more, e);
    hide AllEntries;
    var all := history + more;
    assert forall i :: 0 <= i < |more| ==> all[|history| + i] == more[i];
    assert forall i :: 0 <= i < |history| ==> all[i] == history[i];
  }

  /** After an append an entry is held under its epoch if it was before, or was just inserted. */
  lemma HeldAfter(store: Store, flush: Flush, kind: Kind, e: Entry)
    requires PayloadOf(flush, kind).epoch != ""
    ensures var epoch := PayloadOf(flush, kind).epoch;
            Holds(StreamOf(Append(store, flush).0, kind).history, epoch, e)
            <==> Holds(StreamOf(store, kind).history, epoch, e) || e in AllEntries(NewChunksOf(store, flush, kind))
  {
    AppendAdds(store, flush, kind);
    hide Append, Fresh, MaxSeq, Holds, NewChunksOf;
    HoldsConcat(StreamOf(store, kind).history, NewChunksOf(store, flush, kind), PayloadOf(flush, kind).epoch, e);
  }

  // ── Losing entries ────────────────────────────────────────────────────────

  ghost predicate Held(s: Stream, epoch: string, pushed: seq<Entry>, q: nat) {
    q < |pushed| && Holds(s.history, epoch, pushed[q])
  }

  ghost predicate HeldUpTo(s: Stream, epoch: string, pushed: seq<Entry>, n: int) {
    forall q: nat :: q <= n ==> Held(s, epoch, pushed, q)
  }

  lemma {:induction false} BlockMax(items: seq<Item>, pushed: seq<Entry>, from: nat, position: int)
    requires Usable(pushed) && IsBlock(items, pushed, from)
    ensures MaxSeq(items, position)
            == if items == [] || from + |items| - 1 <= position then position else from + |items| - 1
  {
    MaxSeqIsMax(items, position);
    var max := MaxSeq(items, position);
    if max != position {
      var i :| 0 <= i < |items| && items[i].Dict? && items[i].entry.seqNo == IntSeq(max);
      assert pushed[from + i].seqNo == IntSeq(from + i);
    }
    if items != [] {
      var last := |items| - 1;
      assert items[last] == Dict(pushed[from + last]) && pushed[from + last].seqNo == IntSeq(from + last);
    }
  }

  /**
   * With everything up to the position held, an append keeps it so for its new position if and
   * only if what lies between the position and the payload's start is held already.
   */
  lemma AppendHoldsIff(store: Store, flush: Flush, kind: Kind, pushed: seq<Entry>, from: nat)
    requires var s, p := StreamOf(store, kind), PayloadOf(flush, kind);
             && Usable(pushed) && IsBlock(p.items, pushed, from) && p.items != [] && p.epoch != ""
             && HeldUpTo(s, p.epoch, pushed, Position(s, p.epoch))
    ensures var s, s', p := StreamOf(store, kind), StreamOf(Append(store, flush).0, kind), PayloadOf(flush, kind);
            HeldUpTo(s', p.epoch, pushed, s'.lastSeq)
            <==> forall q: nat :: Position(s, p.epoch) < q < from ==> Held(s, p.epoch, pushed, q)
  {
    var s, s', p := StreamOf(store, kind), StreamOf(Append(store, flush).0, kind), PayloadOf(flush, kind);
    var position := Position(s, p.epoch);
    AppendAdds(store, flush, kind);
    BlockMax(p.items, pushed, from, position);
    hide Append, Fresh, MaxSeq, Holds, NewChunksOf, IsBlock, Numbered;
    forall q: nat
      ensures Held(s', p.epoch, pushed, q)
              <==> Held(s, p.epoch, pushed, q) || (q < |pushed| && from <= q < from + |p.items| && q > position)
    {
      if q < |pushed| {
        HeldAfter(store, flush, kind, pushed[q]);
        InsertsExactly(store, flush, kind, pushed, from, q);
      }
    }
    BlockFits(p.items, pushed, from);
    HeldIff(s, s', p.epoch, pushed, from, from + |p.items|, position);
  }

  lemma BlockFits(items: seq<Item>, pushed: seq<Entry>, from: nat)
    requires IsBlock(items, pushed, from)
    ensures from + |items| <= |pushed|
  {
  }

  lemma HeldIff(s: Stream, s': Stream, epoch: string, pushed: seq<Entry>, from: nat, end: nat, position: int)
    requires from < end <= |pushed| && HeldUpTo(s, epoch, pushed, position)
    requires s'.lastSeq == if end - 1 <= position then position else end - 1
    requires forall q: nat :: Held(s', epoch, pushed, q)
                              <==> Held(s, epoch, pushed, q) || (from <= q < end && q > position)
    ensures HeldUpTo(s', epoch, pushed, s'.lastSeq)
            <==> forall q: nat :: position < q < from ==> Held(s, epoch, pushed, q)
  {
    hide Held;
    if HeldUpTo(s', epoch, pushed, s'.lastSeq) {
      forall q: nat | position < q < from ensures Held(s, epoch, pushed, q) {
        assert Held(s', epoch, pushed, q);
      }
    }
  }

  /**
   * The guard: while the row is in the payload's epoch and nothing past its position is held,
   * an append loses nothing if and only if its payload starts no later than one past last_seq.
   */
  lemma NoGapIff(store: Store, flush: Flush, kind: Kind, pushed: seq<Entry>, from: nat)
    requires var s, p := StreamOf(store, kind), PayloadOf(flush, kind);
             && Usable(pushed) && IsBlock(p.items, pushed, from) && p.items != [] && p.epoch != ""
             && s.epoch == p.epoch && s.lastSeq >= -1 && HeldUpTo(s, p.epoch, pushed, s.lastSeq)
             && forall q: nat :: q > s.lastSeq ==> !Held(s, p.epoch, pushed, q)
    ensures var s, s', p := StreamOf(store, kind), StreamOf(Append(store, flush).0, kind), PayloadOf(flush, kind);
            HeldUpTo(s', p.epoch, pushed, s'.lastSeq) <==> from <= s.lastSeq + 1
  {
    AppendHoldsIff(store, flush, kind, pushed, from);
    hide Append;
    var s, p := StreamOf(store, kind), PayloadOf(flush, kind);
    if from > s.lastSeq + 1 {
      var q: nat := s.lastSeq + 1;
      assert !Held(s, p.epoch, pushed, q);
    }
  }

  /** After another epoch the position starts over, and what must be held is everything before the payload. */
  lemma NoGapAfterReset(store: Store, flush: Flush, kind: Kind, pushed: seq<Entry>, from: nat)
    requires var s, p := StreamOf(store, kind), PayloadOf(flush, kind);
             && Usable(pushed) && IsBlock(p.items, pushed, from) && p.items != [] && p.epoch != ""
             && s.epoch != p.epoch
    ensures var s, s', p := StreamOf(store, kind), StreamOf(Append(store, flush).0, kind), PayloadOf(flush, kind);
            HeldUpTo(s', p.epoch, pushed, s'.lastSeq) <==> HeldUpTo(s, p.epoch, pushed, from - 1)
  {
    AppendHoldsIff(store, flush, kind, pushed, from);
    hide Append;
  }

  // ── Over whole runs ───────────────────────────────────────────────────────

  /** A task about to append under a ring's epoch. */
  ghost predicate Appending(w: World, t: nat, id: RingId) {
    && t in w.server.tasks && w.server.tasks[t].phase.AllRead? && id in w.rings
    && PayloadOf(w.server.tasks[t].flush, id.kind).epoch == id.epoch
  }

  /** What a payload under a ring's epoch carries is a block of the ring's entries. */
  lemma BlockCarried(w: World, id: RingId, p: Payload) returns (from: nat)
    requires Evidence(w, WasLost) && id in w.rings && p.epoch == id.epoch && PayloadOk(w, id.kind, p, WasLost)
    ensures id.epoch != "" && Numbered(w.rings[id].pushed) && IsBlock(p.items, w.rings[id].pushed, from)
  {
    assert RingOk(w, id, WasLost);
    var f: nat :| BlockAt(w, id, p.items, f, WasLost);
    from := f;
  }

  lemma AppendsABlock(steps: seq<Step>, t: nat, id: RingId) returns (from: nat)
    requires Appending(Run(steps), t, id)
    ensures var w := Run(steps);
            && id.epoch != "" && Numbered(w.rings[id].pushed)
            && IsBlock(PayloadOf(w.server.tasks[t].flush, id.kind).items, w.rings[id].pushed, from)
  {
    RunKeepsInv(steps);
    var w := Run(steps);
    assert TaskOk(w, id.kind, w.server.tasks[t], WasLost);
    from := BlockCarried(w, id, PayloadOf(w.server.tasks[t].flush, id.kind));
  }

  lemma OutsideStaysUnheld(store: Store, flush: Flush, kind: Kind, pushed: seq<Entry>, from: nat, q: nat)
    requires Numbered(pushed) && q < |pushed| && IsBlock(PayloadOf(flush, kind).items, pushed, from) && q < from
    requires PayloadOf(flush, kind).epoch != ""
    ensures var epoch := PayloadOf(flush, kind).epoch;
            Holds(StreamOf(Append(store, flush).0, kind).history, epoch, pushed[q])
            <==> Holds(StreamOf(store, kind).history, epoch, pushed[q])
  {
    HeldAfter(store, flush, kind, pushed[q]);
    AppendAdds(store, flush, kind);
    var p := PayloadOf(flush, kind);
    FreshMembers(p.items, Position(StreamOf(store, kind), p.epoch), pushed[q]);
    BlockMember(p.items, pushed, from, q);
    hide Append, Fresh, MaxSeq, NewChunksOf, IsBlock, Numbered, Past, AllEntries, Position, Holds;
  }

  /**
   * When an append loses an entry: if and only if the entry lies between the position the append
   * dedupes against and the start of its payload, and is not stored already.
   */
  lemma LosesIff(steps: seq<Step>, t: nat, id: RingId, q: nat)
    requires Appending(Run(steps), t, id) && q !in Run(steps).rings[id].lost
    ensures var w, w' := Run(steps), Run(steps + [Serve(AppendLock.Commit(t))]);
            var p := PayloadOf(w.server.tasks[t].flush, id.kind);
            && id in w'.rings
            && (q in w'.rings[id].lost
                <==> q in Gap(p, Position(StreamOf(w.server.store, id.kind), id.epoch))
                     && !Stored(w.rings[id], id.epoch, StreamOf(w.server.store, id.kind).history, q))
  {
    var step := Serve(AppendLock.Commit(t));
    assert (steps + [step])[..|steps|] == steps;
    RunKeepsInv(steps);
    var w, w' := Run(steps), Run(steps + [step]);
    var from := AppendsABlock(steps, t, id);
    CommitStep(w, w', t);
    hide Run, Do, Append, Inv;
    var flush := w.server.tasks[t].flush;
    var p := PayloadOf(flush, id.kind);
    if q in Gap(p, Position(StreamOf(w.server.store, id.kind), id.epoch)) {
      assert q < from by { StartsAt(p, w.rings[id].pushed, from); }
      OutsideStaysUnheld(w.server.store, flush, id.kind, w.rings[id].pushed, from, q);
    }
  }

  lemma StartsAt(p: Payload, pushed: seq<Entry>, from: nat)
    requires IsBlock(p.items, pushed, from) && Numbered(pushed) && FirstSeq(p.items).Some?
    ensures FirstSeq(p.items).value == from <= |pushed|
  {
    assert p.items[0] == Dict(pushed[from]);
  }

  /** Nothing is lost that a client or the upload handler did not let go. */
  lemma LossNeedsGivingUp(steps: seq<Step>, id: RingId)
    requires id in Run(steps).rings
    ensures Run(steps).rings[id].lost <= Run(steps).rings[id].givenUp
  {
    RunKeepsInv(steps);
    var w := Run(steps);
    forall q | q in w.rings[id].lost ensures q in w.rings[id].givenUp { assert LostAt(w, id, q); }
  }

  /** An entry held under its epoch is inserted once more. */
  ghost predicate StoresAgain(store: Store, flush: Flush, kind: Kind, pushed: seq<Entry>, q: nat) {
    && Held(StreamOf(store, kind), PayloadOf(flush, kind).epoch, pushed, q)
    && pushed[q] in AllEntries(NewChunksOf(store, flush, kind))
  }

  ghost predicate CarriesHeld(store: Store, flush: Flush, kind: Kind, pushed: seq<Entry>, q: nat) {
    && Held(StreamOf(store, kind), PayloadOf(flush, kind).epoch, pushed, q)
    && Dict(pushed[q]) in PayloadOf(flush, kind).items
  }

  /** A held entry is stored again if and only if the payload carries it and it is past the position. */
  lemma StoresAgainIff(store: Store, flush: Flush, kind: Kind, pushed: seq<Entry>, from: nat, q: nat)
    requires Usable(pushed) && IsBlock(PayloadOf(flush, kind).items, pushed, from)
    requires PayloadOf(flush, kind).epoch != ""
    ensures StoresAgain(store, flush, kind, pushed, q)
            <==> CarriesHeld(store, flush, kind, pushed, q)
                 && q > Position(StreamOf(store, kind), PayloadOf(flush, kind).epoch)
  {
    hide Append, NewChunksOf, Holds, IsBlock, Numbered, AllEntries, Position;
    if q < |pushed| {
      InsertsExactly(store, flush, kind, pushed, from, q);
      BlockMember(PayloadOf(flush, kind).items, pushed, from, q);
    }
  }
}
