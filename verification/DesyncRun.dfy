/**
 * Runs of the desync detector: every digest a peer sends in time is compared exactly once with
 * the local digest of its frame, whichever is there first, and a field is not flagged again
 * within sixty frames.
 */
module DesyncRun {
  import opened Wrappers
  import opened Desync

  datatype Op =
    | Tick(frame: int, realPeer: bool, replay: bool, hashes: seq<int>)
    | Deliver(peer: Peer, digest: Digest)

  function Do(s: State, role: Role, op: Op, phase: int): State {
    match op
    case Tick(frame, realPeer, replay, hashes) => TickStep(s, role, frame, realPeer, replay, hashes, phase)
    case Deliver(peer, d) => IngestStep(s, role, peer, d, phase)
  }

  // ── Exactly once ──────────────────────────────────────────────────────────

  /**
   * Every digest built, and every delivery that was not too old: `early` those that came before
   * their frame's digest was built, if it ever was, `late` those that came after. `ticked` once any
   * tick came: until then the frame counter is what an earlier game left.
   */
  datatype Log = Log(built: Digests, early: set<(Peer, int)>, late: multiset<(Peer, int)>, ticked: bool)

  const NEW_LOG := Log(map[], {}, multiset{}, false)

  function LogDo(s: State, l: Log, role: Role, op: Op): Log {
    match op
    case Tick(frame, realPeer, replay, hashes) =>
      if Stores(role, frame, realPeer, replay) then l.(built := l.built[frame := Digest(frame, hashes)], ticked := true)
      else l.(ticked := true)
    case Deliver(peer, d) =>
      if d.frame < s.tick - HISTORY_DEPTH then l
      else if d.frame in l.built then l.(late := l.late + multiset{(peer, d.frame)})
      else l.(early := l.early + {(peer, d.frame)})
  }

  /** The local digest against this peer's, whichever is named first. */
  predicate Involves(pair: Pair, peer: Peer, frame: int) {
    && pair.0.digest.frame == frame
    && ((pair.0.peer == None && pair.1.peer == Some(peer)) || (pair.0.peer == Some(peer) && pair.1.peer == None))
  }

  function Count(pairs: seq<Pair>, peer: Peer, frame: int): nat {
    if pairs == [] then 0
    else Count(pairs[..|pairs| - 1], peer, frame) + (if Involves(pairs[|pairs| - 1], peer, frame) then 1 else 0)
  }

  predicate Wants(role: Role, peer: Peer) {
    role.Guest? ==> role.host == Some(peer)
  }

  function Bit(b: bool): nat { if b then 1 else 0 }

  lemma {:induction false} CountConcat(a: seq<Pair>, b: seq<Pair>, peer: Peer, frame: int)
    ensures Count(a + b, peer, frame) == Count(a, peer, frame) + Count(b, peer, frame)
  {
    if b == [] {
      assert a + b == a;
    } else {
      CountConcat(a, b[..|b| - 1], peer, frame);
      assert (a + b)[..|a + b| - 1] == a + b[..|b| - 1];
    }
  }

  /** Whether one of the first n sides is this peer's. */
  function CountSides(sides: seq<Side>, peer: Peer): nat {
    if sides == [] then 0
    else CountSides(sides[..|sides| - 1], peer) + Bit(sides[|sides| - 1].peer == Some(peer))
  }

  ghost predicate FromPeers(hits: seq<Side>, frame: int) {
    forall i :: 0 <= i < |hits| ==> hits[i].peer.Some? && hits[i].digest.frame == frame
  }

  lemma InvolvesFirst(sides: seq<Side>, i: nat, j: nat, peer: Peer, frame: int)
    requires i < j < |sides| && sides[0].peer == None && FromPeers(sides[1..], frame)
    requires sides[0].digest.frame == frame
    ensures Involves((sides[i], sides[j]), peer, frame) <==> i == 0 && sides[j].peer == Some(peer)
  {
    assert sides[j] == sides[1..][j - 1];
    if i > 0 { assert sides[i] == sides[1..][i - 1]; }
  }

  lemma CountSidesSnoc(sides: seq<Side>, x: Side, peer: Peer)
    ensures CountSides(sides + [x], peer) == CountSides(sides, peer) + Bit(x.peer == Some(peer))
  {
    assert (sides + [x])[..|sides|] == sides;
  }

  /** Of all pairs only those with the local side, which come first, count. */
  lemma {:induction false} CountPairs(sides: seq<Side>, i: nat, j: nat, peer: Peer, frame: int)
    requires i < |sides| && i < j <= |sides| && sides[0].peer == None && FromPeers(sides[1..], frame)
    requires sides[0].digest.frame == frame
    ensures Count(PairsBefore(sides, i, j), peer, frame)
            == CountSides(if i == 0 then sides[1..j] else sides[1..], peer)
    decreases i, j
  {
    hide Count, CountSides, Involves, FromPeers;
    if j > i + 1 {
      CountPairs(sides, i, j - 1, peer, frame);
      CountConcat(PairsBefore(sides, i, j - 1), [(sides[i], sides[j - 1])], peer, frame);
      CountOne((sides[i], sides[j - 1]), peer, frame);
      InvolvesFirst(sides, i, j - 1, peer, frame);
      if i == 0 {
        CountSidesSnoc(sides[1..j - 1], sides[j - 1], peer);
        assert sides[1..j - 1] + [sides[j - 1]] == sides[1..j];
      }
    } else if i > 0 {
      CountPairs(sides, i - 1, |sides|, peer, frame);
      assert sides[1..|sides|] == sides[1..];
    } else {
      CountNothing(peer, frame);
      assert sides[1..1] == [];
    }
  }

  lemma CountNothing(peer: Peer, frame: int)
    ensures Count([], peer, frame) == 0 && CountSides([], peer) == 0
  {
  }

  lemma CountOne(pair: Pair, peer: Peer, frame: int)
    ensures Count([pair], peer, frame) == Bit(Involves(pair, peer, frame))
  {
    assert [pair][..0] == [];
  }

  lemma {:induction false} CountEach(role: Role, d: Digest, hits: seq<Side>, peer: Peer)
    requires !role.Pairwise? && FromPeers(hits, d.frame)
    ensures Count(EachPair(role, d, hits), peer, d.frame) == if Wants(role, peer) then CountSides(hits, peer) else 0
  {
    if hits != [] {
      var n := |hits| - 1;
      CountEach(role, d, hits[..n], peer);
      CountConcat(EachPair(role, d, hits[..n]), LocalPair(role, d, hits[n]), peer, d.frame);
      CountLocal(role, d, hits[n], peer, d.frame);
    }
  }

  lemma CountLocal(role: Role, d: Digest, side: Side, peer: Peer, frame: int)
    requires side.peer.Some? && side.digest.frame == d.frame
    ensures Count(LocalPair(role, d, side), peer, frame)
            == Bit(Wants(role, peer) && side.peer == Some(peer) && frame == d.frame)
  {
    CountOne((side, Side(None, d)), peer, frame);
    CountOne((Side(None, d), side), peer, frame);
  }

  lemma {:induction false} HitsOf(peers: seq<Peer>, digests: map<Peer, Digests>, frame: int, peer: Peer)
    requires Framed(digests)
    ensures FromPeers(Hits(peers, digests, frame), frame)
    ensures (forall i, j :: 0 <= i < j < |peers| ==> peers[i] != peers[j]) ==>
              CountSides(Hits(peers, digests, frame), peer)
              == Bit(peer in peers && peer in digests && frame in digests[peer])
  {
    if peers != [] {
      var front, p := peers[..|peers| - 1], peers[|peers| - 1];
      HitsOf(front, digests, frame, peer);
      assert peers == front + [p];
      var hits := Hits(front, digests, frame);
      if p in digests && frame in digests[p] {
        assert (hits + [Side(Some(p), digests[p][frame])])[..|hits|] == hits;
      } else {
        assert hits + [] == hits;
      }
    }
  }

  /** A peer's digests are filed under their own frames. */
  ghost predicate Framed(digests: map<Peer, Digests>) {
    forall p, f :: p in digests && f in digests[p] ==> digests[p][f].frame == f
  }

  ghost predicate Listed(s: State) {
    && (forall p :: p in s.digests <==> p in s.peers)
    && (forall i, j :: 0 <= i < j < |s.peers| ==> s.peers[i] != s.peers[j])
    && Framed(s.digests)
  }

  lemma CountTick(s: State, role: Role, d: Digest, peer: Peer)
    requires Listed(s)
    ensures Count(TickPairs(role, d, Hits(s.peers, s.digests, d.frame)), peer, d.frame)
            == Bit(Wants(role, peer) && peer in s.digests && d.frame in s.digests[peer])
  {
    hide Count, Hits, PairsBefore, CountSides, EachPair;
    var hits := Hits(s.peers, s.digests, d.frame);
    HitsOf(s.peers, s.digests, d.frame, peer);
    if role.Pairwise? {
      var sides := [Side(None, d)] + hits;
      assert sides[1..] == hits;
      CountPairs(sides, |sides| - 1, |sides|, peer, d.frame);
      assert sides[1..|sides|] == hits;
    } else {
      CountEach(role, d, hits, peer);
    }
  }

  /** Local digests are kept for sixty frames; early peer digests at least until their frame comes. */
  ghost predicate Kept(s: State, l: Log) {
    && (forall f :: f in l.built ==> l.ticked && f <= s.tick && l.built[f].frame == f)
    && (forall f :: f in s.local ==> f in l.built && s.local[f] == l.built[f])
    && (forall f :: f in l.built && f >= s.tick - HISTORY_DEPTH ==> f in s.local)
    && (forall p, f :: (p, f) in l.early && ToCome(s, l, f) ==> p in s.digests && f in s.digests[p])
    && (forall p, f :: p in s.digests && f in s.digests[p] && ToCome(s, l, f) ==> (p, f) in l.early)
    && (forall p, f :: (p, f) in l.early && !l.ticked ==> f >= s.tick - HISTORY_DEPTH)
  }

  /** A frame that can still be ticked. */
  predicate ToCome(s: State, l: Log, frame: int) {
    !l.ticked || s.tick < frame
  }

  ghost predicate CountedFor(s: State, l: Log, role: Role, peer: Peer, frame: int) {
    Count(s.flags.compared, peer, frame)
    == if Wants(role, peer) then l.late[(peer, frame)] + Bit((peer, frame) in l.early && frame in l.built) else 0
  }

  ghost predicate Inv(s: State, l: Log, role: Role) {
    Listed(s) && Kept(s, l) && forall p, f :: CountedFor(s, l, role, p, f)
  }

  /** Such a frame is the only one a tick may be at. */
  predicate Enabled(s: State, l: Log, op: Op) {
    op.Tick? ==> ToCome(s, l, op.frame)
  }

  ghost predicate AtFrame(pairs: seq<Pair>, frame: int) {
    forall k :: 0 <= k < |pairs| ==> pairs[k].0.digest.frame == frame
  }

  lemma {:induction false} CountElsewhere(pairs: seq<Pair>, at: int, peer: Peer, frame: int)
    requires AtFrame(pairs, at) && at != frame
    ensures Count(pairs, peer, frame) == 0
  {
    if pairs != [] { CountElsewhere(pairs[..|pairs| - 1], at, peer, frame); }
  }

  lemma {:induction false} PairsBeforeFrame(sides: seq<Side>, i: nat, j: nat, frame: int)
    requires i < |sides| && i < j <= |sides| && forall k :: 0 <= k < |sides| ==> sides[k].digest.frame == frame
    ensures AtFrame(PairsBefore(sides, i, j), frame)
    decreases i, j
  {
    if j > i + 1 {
      PairsBeforeFrame(sides, i, j - 1, frame);
    } else if i > 0 {
      PairsBeforeFrame(sides, i - 1, |sides|, frame);
    }
  }

  lemma {:induction false} EachPairFrame(role: Role, d: Digest, hits: seq<Side>)
    requires FromPeers(hits, d.frame)
    ensures AtFrame(EachPair(role, d, hits), d.frame)
  {
    if hits != [] { EachPairFrame(role, d, hits[..|hits| - 1]); }
  }

  lemma TickPairsFrame(s: State, role: Role, d: Digest)
    requires Listed(s)
    ensures AtFrame(TickPairs(role, d, Hits(s.peers, s.digests, d.frame)), d.frame)
  {
    var hits := Hits(s.peers, s.digests, d.frame);
    HitsOf(s.peers, s.digests, d.frame, "");
    if role.Pairwise? {
      var sides := [Side(None, d)] + hits;
      PairsBeforeFrame(sides, |sides| - 1, |sides|, d.frame);
    } else {
      EachPairFrame(role, d, hits);
    }
  }

  lemma TickCounts(s: State, l: Log, role: Role, op: Op, phase: int, peer: Peer, frame: int)
    requires Inv(s, l, role) && op.Tick? && Enabled(s, l, op)
    ensures CountedFor(Do(s, role, op, phase), LogDo(s, l, role, op), role, peer, frame)
  {
    assert CountedFor(s, l, role, peer, frame);
    if Stores(role, op.frame, op.realPeer, op.replay) {
      var d := Digest(op.frame, op.hashes);
      var pairs := TickPairs(role, d, Hits(s.peers, s.digests, op.frame));
      DiffAllCompares(s.flags, pairs, phase);
      CountConcat(s.flags.compared, pairs, peer, frame);
      if frame == op.frame {
        CountTick(s, role, d, peer);
      } else {
        TickPairsFrame(s, role, d);
        hide AtFrame;
        CountElsewhere(pairs, d.frame, peer, frame);
      }
      hide DiffAll, TickPairs, Hits, Count, Trim;
    }
  }

  lemma DeliverCounts(s: State, l: Log, role: Role, op: Op, phase: int, peer: Peer, frame: int)
    requires Inv(s, l, role) && op.Deliver?
    ensures CountedFor(Do(s, role, op, phase), LogDo(s, l, role, op), role, peer, frame)
  {
    assert CountedFor(s, l, role, peer, frame);
    var d := op.digest;
    if d.frame >= s.tick - HISTORY_DEPTH && d.frame in s.local {
      var pairs := LocalPair(role, s.local[d.frame], Side(Some(op.peer), d));
      DiffAllCompares(s.flags, pairs, phase);
      CountConcat(s.flags.compared, pairs, peer, frame);
      CountLocal(role, s.local[d.frame], Side(Some(op.peer), d), peer, frame);
    }
    hide DiffAll, LocalPair, Count, Trim;
  }

  lemma TickKeepsKept(s: State, l: Log, role: Role, op: Op, phase: int)
    requires op.Tick? && Listed(s) && Kept(s, l) && Enabled(s, l, op)
    ensures Listed(Do(s, role, op, phase)) && Kept(Do(s, role, op, phase), LogDo(s, l, role, op))
  {
    hide DiffAll, TickPairs, Hits, Framed;
  }

  lemma DeliverKeepsListed(s: State, role: Role, op: Op, phase: int)
    requires op.Deliver? && Listed(s)
    ensures Listed(Do(s, role, op, phase))
  {
    hide DiffAll, LocalPair;
  }

  lemma DeliverKeepsKept(s: State, l: Log, role: Role, op: Op, phase: int)
    requires op.Deliver? && Listed(s) && Kept(s, l)
    ensures Kept(Do(s, role, op, phase), LogDo(s, l, role, op))
  {
    hide DiffAll, LocalPair, Listed;
    var s', l' := Do(s, role, op, phase), LogDo(s, l, role, op);
    assert s'.local == s.local && s'.tick == s.tick && l'.built == l.built;
    forall p, f | (p, f) in l'.early && ToCome(s', l', f) ensures p in s'.digests && f in s'.digests[p] {
      if (p, f) != (op.peer, op.digest.frame) { assert (p, f) in l.early; }
    }
    forall p, f | p in s'.digests && f in s'.digests[p] && ToCome(s', l', f) ensures (p, f) in l'.early {
      if (p, f) != (op.peer, op.digest.frame) { assert p in s.digests && f in s.digests[p]; }
    }
  }

  lemma DoKeepsKept(s: State, l: Log, role: Role, op: Op, phase: int)
    requires Listed(s) && Kept(s, l) && Enabled(s, l, op)
    ensures Listed(Do(s, role, op, phase)) && Kept(Do(s, role, op, phase), LogDo(s, l, role, op))
  {
    hide Do, LogDo, Listed, Kept;
    if op.Tick? {
      TickKeepsKept(s, l, role, op, phase);
    } else {
      DeliverKeepsListed(s, role, op, phase);
      DeliverKeepsKept(s, l, role, op, phase);
    }
  }

  lemma DoKeepsInv(s: State, l: Log, role: Role, op: Op, phase: int)
    requires Inv(s, l, role) && Enabled(s, l, op)
    ensures Inv(Do(s, role, op, phase), LogDo(s, l, role, op), role)
  {
    DoKeepsKept(s, l, role, op, phase);
    forall p, f ensures CountedFor(Do(s, role, op, phase), LogDo(s, l, role, op), role, p, f) {
      if op.Tick? { TickCounts(s, l, role, op, phase, p, f); } else { DeliverCounts(s, l, role, op, phase, p, f); }
    }
  }

  function Start(tick: int): State {
    State([], map[], map[], tick, Flags(map[], [], []))
  }

  /** A run from a frame counter left over from before, each operation with the scene phase it sees. */
  function Run(role: Role, start: int, ops: seq<(Op, int)>): (State, Log) {
    if ops == [] then (Start(start), NEW_LOG)
    else
      var (s, l) := Run(role, start, ops[..|ops| - 1]);
      var (op, phase) := ops[|ops| - 1];
      (Do(s, role, op, phase), LogDo(s, l, role, op))
  }

  /** Ticks come in frame order; the first may be at any frame. */
  predicate InOrder(ops: seq<(Op, int)>) {
    forall i, j :: 0 <= i < j < |ops| && ops[i].0.Tick? && ops[j].0.Tick? ==> ops[i].0.frame < ops[j].0.frame
  }

  /** The frame ticked last, or the one left over. */
  function LastTick(start: int, ops: seq<(Op, int)>): int {
    if ops == [] then start
    else if ops[|ops| - 1].0.Tick? then ops[|ops| - 1].0.frame
    else LastTick(start, ops[..|ops| - 1])
  }

  /** A tick that is to build its frame's digest: with a real peer, not in a replay, in mode C every sixth frame. */
  predicate Builds(role: Role, op: Op) {
    op.Tick? && op.realPeer && !op.replay && (role.Pairwise? || op.frame % 6 == 0)
  }

  ghost predicate BuiltAt(role: Role, ops: seq<(Op, int)>, frame: int) {
    exists i :: 0 <= i < |ops| && Builds(role, ops[i].0) && ops[i].0.frame == frame
  }

  lemma {:induction false} TickIsLast(role: Role, start: int, ops: seq<(Op, int)>)
    ensures Run(role, start, ops).0.tick == LastTick(start, ops)
    ensures Run(role, start, ops).1.ticked <==> exists i :: 0 <= i < |ops| && ops[i].0.Tick?
    ensures Run(role, start, ops).1.ticked ==> exists i :: 0 <= i < |ops| && ops[i].0.Tick? && ops[i].0.frame == LastTick(start, ops)
  {
    hide Stores, TickPairs, DiffAll, LocalPair, Hits;
    if ops != [] {
      var n := |ops| - 1;
      TickIsLast(role, start, ops[..n]);
      assert forall i :: 0 <= i < n ==> ops[..n][i] == ops[i];
      if ops[n].0.Tick? { assert ops[n].0.frame == LastTick(start, ops); }
    }
  }

  lemma BuiltAtSnoc(role: Role, front: seq<(Op, int)>, op: (Op, int), frame: int)
    ensures BuiltAt(role, front + [op], frame) <==> BuiltAt(role, front, frame) || (Builds(role, op.0) && op.0.frame == frame)
  {
    var ops := front + [op];
    assert ops[|front|] == op;
    assert forall i :: 0 <= i < |front| ==> ops[i] == front[i];
  }

  /** Over any run at all, a frame's digest is built exactly if the run has such a tick. */
  lemma {:induction false} BuiltIff(role: Role, start: int, ops: seq<(Op, int)>, frame: int)
    ensures frame in Run(role, start, ops).1.built <==> BuiltAt(role, ops, frame)
  {
    if ops == [] {
    } else {
      var front, op := ops[..|ops| - 1], ops[|ops| - 1];
      BuiltIff(role, start, front, frame);
      assert ops == front + [op];
      BuiltAtSnoc(role, front, op, frame);
      hide Do, BuiltAt;
    }
  }

  lemma OrderEnables(role: Role, start: int, ops: seq<(Op, int)>)
    requires InOrder(ops) && ops != []
    ensures InOrder(ops[..|ops| - 1])
    ensures var (s, l) := Run(role, start, ops[..|ops| - 1]); Enabled(s, l, ops[|ops| - 1].0)
  {
    TickIsLast(role, start, ops[..|ops| - 1]);
    hide Run, LastTick;
  }

  lemma {:induction false} RunKeepsInv(role: Role, start: int, ops: seq<(Op, int)>)
    requires InOrder(ops)
    ensures Inv(Run(role, start, ops).0, Run(role, start, ops).1, role)
  {
    hide Do, LogDo, Inv;
    if ops == [] {
      StartInv(role, start);
    } else {
      var (s, l) := Run(role, start, ops[..|ops| - 1]);
      OrderEnables(role, start, ops);
      RunKeepsInv(role, start, ops[..|ops| - 1]);
      DoKeepsInv(s, l, role, ops[|ops| - 1].0, ops[|ops| - 1].1);
    }
  }

  lemma StartInv(role: Role, start: int)
    ensures Inv(Start(start), NEW_LOG, role)
  {
  }

  /** How many digests of a peer's frame arrived no more than sixty frames behind the local tick. */
  function Accepted(start: int, ops: seq<(Op, int)>, peer: Peer, frame: int): nat {
    if ops == [] then 0
    else
      var front, op := ops[..|ops| - 1], ops[|ops| - 1].0;
      Accepted(start, front, peer, frame)
      + Bit(op.Deliver? && op.peer == peer && op.digest.frame == frame && frame >= LastTick(start, front) - 60)
  }

  lemma {:induction false} LogTallies(role: Role, start: int, ops: seq<(Op, int)>, peer: Peer, frame: int)
    ensures var l, n := Run(role, start, ops).1, Accepted(start, ops, peer, frame);
            var logged := l.late[(peer, frame)] + Bit((peer, frame) in l.early);
            && logged <= n && (n > 0 ==> logged > 0) && (l.late[(peer, frame)] > 0 ==> frame in l.built)
  {
    hide Do, LastTick, Stores;
    if ops != [] {
      LogTallies(role, start, ops[..|ops| - 1], peer, frame);
      TickIsLast(role, start, ops[..|ops| - 1]);
    }
  }

  /**
   * A digest that arrives once, no more than sixty frames behind the tick, is compared exactly once
   * with the local digest of its frame if the run ever ticks that frame with a real peer and no
   * replay (in mode C, one frame in six), whichever comes first; otherwise never. In mode C that
   * holds of the digests the role looks at.
   */
  lemma ComparedOnce(role: Role, start: int, ops: seq<(Op, int)>, peer: Peer, frame: int)
    requires InOrder(ops) && Accepted(start, ops, peer, frame) <= 1
    ensures Count(Run(role, start, ops).0.flags.compared, peer, frame)
            == Bit(Accepted(start, ops, peer, frame) == 1 && Wants(role, peer)
                   && exists i :: 0 <= i < |ops| && ops[i].0.Tick? && ops[i].0.frame == frame && ops[i].0.realPeer
                                  && !ops[i].0.replay && (role.Pairwise? || frame % 6 == 0))
  {
    RunKeepsInv(role, start, ops);
    LogTallies(role, start, ops, peer, frame);
    BuiltIff(role, start, ops, frame);
    var (s, l) := Run(role, start, ops);
    assert CountedFor(s, l, role, peer, frame);
    hide Count, Run, Accepted, Listed, Kept;
  }

  // ── What is compared ──────────────────────────────────────────────────────

  ghost predicate Delivered(ops: seq<(Op, int)>, peer: Peer, d: Digest) {
    exists i :: 0 <= i < |ops| && ops[i].0 == Deliver(peer, d)
  }

  ghost predicate BuiltFor(role: Role, ops: seq<(Op, int)>, d: Digest) {
    exists i :: 0 <= i < |ops| && Builds(role, ops[i].0) && d == Digest(ops[i].0.frame, ops[i].0.hashes)
  }

  /** A side is a digest built at its frame's tick, or one its peer sent. */
  ghost predicate Genuine(side: Side, role: Role, ops: seq<(Op, int)>) {
    match side.peer
    case None => BuiltFor(role, ops, side.digest)
    case Some(p) => Delivered(ops, p, side.digest)
  }

  ghost predicate GenuinePair(pair: Pair, role: Role, ops: seq<(Op, int)>) {
    pair.0.digest.frame == pair.1.digest.frame && Genuine(pair.0, role, ops) && Genuine(pair.1, role, ops)
  }

  ghost predicate AllGenuine(pairs: seq<Pair>, role: Role, ops: seq<(Op, int)>) {
    forall i :: 0 <= i < |pairs| ==> GenuinePair(pairs[i], role, ops)
  }

  ghost predicate AllGenuineAt(sides: seq<Side>, frame: int, role: Role, ops: seq<(Op, int)>) {
    forall k :: 0 <= k < |sides| ==> Genuine(sides[k], role, ops) && sides[k].digest.frame == frame
  }

  /** Everything held is filed under its frame, and comes from where it should. */
  ghost predicate Sent(s: State, role: Role, ops: seq<(Op, int)>) {
    && (forall p, f :: p in s.digests && f in s.digests[p] ==> Delivered(ops, p, s.digests[p][f]))
    && (forall f :: f in s.local ==> s.local[f].frame == f && BuiltFor(role, ops, s.local[f]))
    && Framed(s.digests)
  }

  lemma {:induction false} GenuinePairsBefore(sides: seq<Side>, i: nat, j: nat, frame: int, role: Role, ops: seq<(Op, int)>)
    requires i < |sides| && i < j <= |sides|
    requires AllGenuineAt(sides, frame, role, ops)
    ensures AllGenuine(PairsBefore(sides, i, j), role, ops)
    decreases i, j
  {
    hide Genuine;
    if j > i + 1 {
      GenuinePairsBefore(sides, i, j - 1, frame, role, ops);
    } else if i > 0 {
      GenuinePairsBefore(sides, i - 1, |sides|, frame, role, ops);
    }
  }

  lemma {:induction false} GenuineEach(role: Role, d: Digest, hits: seq<Side>, ops: seq<(Op, int)>)
    requires Genuine(Side(None, d), role, ops)
    requires AllGenuineAt(hits, d.frame, role, ops)
    ensures AllGenuine(EachPair(role, d, hits), role, ops)
  {
    hide Genuine;
    if hits != [] { GenuineEach(role, d, hits[..|hits| - 1], ops); }
  }

  lemma {:induction false} GenuineHits(s: State, peers: seq<Peer>, frame: int, role: Role, ops: seq<(Op, int)>)
    requires Sent(s, role, ops)
    ensures AllGenuineAt(Hits(peers, s.digests, frame), frame, role, ops)
  {
    hide Delivered, BuiltFor;
    if peers != [] {
      var p := peers[|peers| - 1];
      GenuineHits(s, peers[..|peers| - 1], frame, role, ops);
      if p in s.digests && frame in s.digests[p] {
        assert Genuine(Side(Some(p), s.digests[p][frame]), role, ops);
      }
    }
  }

  lemma GenuineTick(s: State, role: Role, d: Digest, ops: seq<(Op, int)>)
    requires Sent(s, role, ops) && BuiltFor(role, ops, d)
    ensures AllGenuine(TickPairs(role, d, Hits(s.peers, s.digests, d.frame)), role, ops)
  {
    GenuineHits(s, s.peers, d.frame, role, ops);
    var hits := Hits(s.peers, s.digests, d.frame);
    var sides := [Side(None, d)] + hits;
    assert Genuine(Side(None, d), role, ops);
    hide Genuine, Hits, AllGenuine, Sent;
    assert AllGenuineAt(sides, d.frame, role, ops);
    if role.Pairwise? {
      GenuinePairsBefore(sides, |sides| - 1, |sides|, d.frame, role, ops);
    } else {
      GenuineEach(role, d, hits, ops);
    }
  }

  /** What was genuine stays so as more happens. */
  lemma GenuineLater(pairs: seq<Pair>, role: Role, ops: seq<(Op, int)>, op: (Op, int))
    requires AllGenuine(pairs, role, ops)
    ensures AllGenuine(pairs, role, ops + [op])
  {
    forall i | 0 <= i < |pairs| ensures GenuinePair(pairs[i], role, ops + [op]) {
      assert GenuinePair(pairs[i], role, ops);
      GenuineSideLater(pairs[i].0, role, ops, op);
      GenuineSideLater(pairs[i].1, role, ops, op);
    }
  }

  lemma GenuineSideLater(side: Side, role: Role, ops: seq<(Op, int)>, op: (Op, int))
    requires Genuine(side, role, ops)
    ensures Genuine(side, role, ops + [op])
  {
    if side.peer.Some? {
      DeliveredLater(ops, op, side.peer.value, side.digest);
    } else {
      BuiltLater(role, ops, op, side.digest);
    }
  }

  lemma DeliveredLater(ops: seq<(Op, int)>, op: (Op, int), peer: Peer, d: Digest)
    requires Delivered(ops, peer, d)
    ensures Delivered(ops + [op], peer, d)
  {
    var i :| 0 <= i < |ops| && ops[i].0 == Deliver(peer, d);
    assert (ops + [op])[i].0 == Deliver(peer, d);
  }

  lemma BuiltLater(role: Role, ops: seq<(Op, int)>, op: (Op, int), d: Digest)
    requires BuiltFor(role, ops, d)
    ensures BuiltFor(role, ops + [op], d)
  {
    var i :| 0 <= i < |ops| && Builds(role, ops[i].0) && d == Digest(ops[i].0.frame, ops[i].0.hashes);
    assert (ops + [op])[i] == ops[i];
  }

  /** The last operation delivers its digest, or builds it. */
  lemma Now(role: Role, ops: seq<(Op, int)>, op: (Op, int))
    ensures op.0.Deliver? ==> Delivered(ops + [op], op.0.peer, op.0.digest)
    ensures Builds(role, op.0) ==> BuiltFor(role, ops + [op], Digest(op.0.frame, op.0.hashes))
  {
    assert (ops + [op])[|ops|] == op;
  }

  lemma SentLater(s: State, role: Role, ops: seq<(Op, int)>, op: (Op, int))
    requires Sent(s, role, ops)
    ensures Sent(s, role, ops + [op])
  {
    forall p, f | p in s.digests && f in s.digests[p] ensures Delivered(ops + [op], p, s.digests[p][f]) {
      DeliveredLater(ops, op, p, s.digests[p][f]);
    }
    forall f | f in s.local ensures BuiltFor(role, ops + [op], s.local[f]) {
      BuiltLater(role, ops, op, s.local[f]);
    }
  }

  lemma SentAfter(s: State, role: Role, ops: seq<(Op, int)>, op: (Op, int))
    requires Sent(s, role, ops)
    ensures Sent(Do(s, role, op.0, op.1), role, ops + [op])
  {
    SentLater(s, role, ops, op);
    Now(role, ops, op);
    hide DiffAll, TickPairs, LocalPair, Hits, Delivered, BuiltFor;
  }

  lemma NothingSent(role: Role, start: int)
    ensures Sent(Start(start), role, []) && AllGenuine(Start(start).flags.compared, role, [])
  {
  }

  /**
   * Over any run at all, only digests of one frame are ever compared: local ones, each built by a
   * tick of its frame with a real peer and no replay, and ones peers sent for it.
   */
  lemma {:induction false} ComparesTheRightDigests(role: Role, start: int, ops: seq<(Op, int)>)
    ensures AllGenuine(Run(role, start, ops).0.flags.compared, role, ops)
    ensures Sent(Run(role, start, ops).0, role, ops)
  {
    hide Do, LogDo, AllGenuine, Sent;
    if ops == [] {
      NothingSent(role, start);
    } else {
      var front, op := ops[..|ops| - 1], ops[|ops| - 1];
      ComparesTheRightDigests(role, start, front);
      assert ops == front + [op];
      StepGenuine(Run(role, start, front).0, role, front, op);
    }
  }

  lemma StepGenuine(s: State, role: Role, ops: seq<(Op, int)>, op: (Op, int))
    requires AllGenuine(s.flags.compared, role, ops) && Sent(s, role, ops)
    ensures AllGenuine(Do(s, role, op.0, op.1).flags.compared, role, ops + [op])
    ensures Sent(Do(s, role, op.0, op.1), role, ops + [op])
  {
    SentAfter(s, role, ops, op);
    SentLater(s, role, ops, op);
    GenuineLater(s.flags.compared, role, ops, op);
    Now(role, ops, op);
    match op.0 {
      case Tick(frame, realPeer, replay, hashes) =>
        if Stores(role, frame, realPeer, replay) {
          var d := Digest(frame, hashes);
          var pairs := TickPairs(role, d, Hits(s.peers, s.digests, frame));
          DiffAllCompares(s.flags, pairs, op.1);
          GenuineTick(s, role, d, ops + [op]);
          hide AllGenuine, Sent, BuiltFor;
          GenuineConcat(s.flags.compared, pairs, role, ops + [op]);
        }
      case Deliver(peer, d) =>
        if d.frame >= s.tick - HISTORY_DEPTH && d.frame in s.local {
          var pairs := LocalPair(role, s.local[d.frame], Side(Some(peer), d));
          DiffAllCompares(s.flags, pairs, op.1);
          assert AllGenuine(pairs, role, ops + [op]) by { hide BuiltFor, Delivered; }
          hide AllGenuine, Sent;
          GenuineConcat(s.flags.compared, pairs, role, ops + [op]);
        }
    }
  }

  lemma GenuineConcat(a: seq<Pair>, b: seq<Pair>, role: Role, ops: seq<(Op, int)>)
    requires AllGenuine(a, role, ops) && AllGenuine(b, role, ops)
    ensures AllGenuine(a + b, role, ops)
  {
    hide GenuinePair;
  }

  // ── Who is compared with whom ─────────────────────────────────────────────

  /**
   * In mode B no peer is ever compared before the local side; the host compares itself with its
   * guests, itself first, and a guest only its host with itself.
   */
  ghost predicate SidesOk(pair: Pair, role: Role) {
    match role
    case Pairwise => pair.1.peer.Some?
    case Host => pair.0.peer.None? && pair.1.peer.Some?
    case Guest(host) => host.Some? && pair.0.peer == host && pair.1.peer.None?
  }

  ghost predicate AllSidesOk(pairs: seq<Pair>, role: Role) {
    forall i :: 0 <= i < |pairs| ==> SidesOk(pairs[i], role)
  }

  lemma {:induction false} PairsSides(sides: seq<Side>, i: nat, j: nat)
    requires i < |sides| && i < j <= |sides| && forall k :: 1 <= k < |sides| ==> sides[k].peer.Some?
    ensures AllSidesOk(PairsBefore(sides, i, j), Pairwise)
    decreases i, j
  {
    if j > i + 1 {
      PairsSides(sides, i, j - 1);
    } else if i > 0 {
      PairsSides(sides, i - 1, |sides|);
    }
  }

  lemma {:induction false} EachSides(role: Role, d: Digest, hits: seq<Side>)
    requires !role.Pairwise? && forall k :: 0 <= k < |hits| ==> hits[k].peer.Some?
    ensures AllSidesOk(EachPair(role, d, hits), role)
  {
    if hits != [] { EachSides(role, d, hits[..|hits| - 1]); }
  }

  lemma {:induction false} HitsHavePeers(peers: seq<Peer>, digests: map<Peer, Digests>, frame: int)
    ensures forall k :: 0 <= k < |Hits(peers, digests, frame)| ==> Hits(peers, digests, frame)[k].peer.Some?
  {
    if peers != [] { HitsHavePeers(peers[..|peers| - 1], digests, frame); }
  }

  lemma TickSides(s: State, role: Role, d: Digest)
    ensures AllSidesOk(TickPairs(role, d, Hits(s.peers, s.digests, d.frame)), role)
  {
    var hits := Hits(s.peers, s.digests, d.frame);
    HitsHavePeers(s.peers, s.digests, d.frame);
    hide Hits;
    if role.Pairwise? {
      var sides := [Side(None, d)] + hits;
      PairsSides(sides, |sides| - 1, |sides|);
    } else {
      EachSides(role, d, hits);
    }
  }

  /** Over any run. */
  lemma {:induction false} ComparesInOrder(role: Role, start: int, ops: seq<(Op, int)>)
    ensures AllSidesOk(Run(role, start, ops).0.flags.compared, role)
  {
    if ops != [] {
      var (s, op) := (Run(role, start, ops[..|ops| - 1]).0, ops[|ops| - 1]);
      ComparesInOrder(role, start, ops[..|ops| - 1]);
      hide SidesOk, DiffAll, TickPairs, Hits;
      match op.0 {
        case Tick(frame, realPeer, replay, hashes) =>
          var d := Digest(frame, hashes);
          TickSides(s, role, d);
          DiffAllCompares(s.flags, TickPairs(role, d, Hits(s.peers, s.digests, frame)), op.1);
        case Deliver(peer, d) =>
          if d.frame in s.local {
            DeliverSides(role, s.local[d.frame], Side(Some(peer), d));
            DiffAllCompares(s.flags, LocalPair(role, s.local[d.frame], Side(Some(peer), d)), op.1);
          }
      }
    }
  }

  lemma DeliverSides(role: Role, d: Digest, side: Side)
    requires side.peer.Some?
    ensures AllSidesOk(LocalPair(role, d, side), role)
  {
  }
}
