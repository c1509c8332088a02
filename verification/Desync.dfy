/**
 * The desync detector's matching (web/static/kn-desync-detector.js): local digests, peer digests,
 * and the flags raised when two digests of a frame differ. The scene phase, the field hashes, and
 * whether a real peer or a replay is present come from outside and are parameters.
 */
module Desync {
  import opened Wrappers

  const HISTORY_DEPTH: int := 60
  const DEDUP_WINDOW: int := 60
  const FIELD_COUNT: nat := 21
  const MATCH_PHASE: nat := 17

  type Peer = string

  datatype Digest = Digest(frame: int, hashes: seq<int>)

  /** Pairwise is mode B; in mode C the host checks its guests and a guest checks only the host. */
  datatype Role = Pairwise | Host | Guest(host: Option<Peer>)

  /** One party of a comparison; the local one has no peer id. */
  datatype Side = Side(peer: Option<Peer>, digest: Digest)

  type Pair = (Side, Side)

  datatype Event =
    | PhaseFlag(frame: int, a: Option<Peer>, b: Option<Peer>)
    | FieldFlag(frame: int, field: nat, slot: Option<nat>, a: Option<Peer>, b: Option<Peer>)

  /** When each field was last flagged, what was flagged, and which digests were compared. */
  datatype Flags = Flags(last: map<nat, int>, events: seq<Event>, compared: seq<Pair>)

  /** A peer's packet may bring too few hashes; a missing one equals only another missing one. */
  function HashOf(d: Digest, field: nat): Option<int> {
    if field < |d.hashes| then Some(d.hashes[field]) else None
  }

  function SlotForField(field: nat): Option<nat> {
    if field < 16 then Some(field % 4) else None
  }

  predicate EligibleInPhase(field: nat, phase: int) {
    if field <= 3 || 18 <= field <= 20 then phase == 22
    else if 8 <= field <= 15 then phase == 16
    else true
  }

  function LastFlagged(last: map<nat, int>, field: nat): int {
    if field in last then last[field] else -1
  }

  predicate Differs(a: Digest, b: Digest, phase: int, field: nat) {
    field != MATCH_PHASE && HashOf(a, field) != HashOf(b, field) && EligibleInPhase(field, phase)
  }

  /** The loop over the first n fields. */
  function DiffFields(f: Flags, a: Side, b: Side, phase: int, n: nat): Flags {
    if n == 0 then f
    else
      var g := DiffFields(f, a, b, phase, n - 1);
      if Differs(a.digest, b.digest, phase, n - 1)
         && a.digest.frame - LastFlagged(g.last, n - 1) >= DEDUP_WINDOW
      then g.(last := g.last[n - 1 := a.digest.frame],
              events := g.events + [FieldFlag(a.digest.frame, n - 1, SlotForField(n - 1), a.peer, b.peer)])
      else g
  }

  function Diff(f: Flags, pair: Pair, phase: int): Flags {
    var (a, b) := pair;
    var g := f.(compared := f.compared + [pair]);
    if HashOf(a.digest, MATCH_PHASE) != HashOf(b.digest, MATCH_PHASE)
    then g.(events := g.events + [PhaseFlag(a.digest.frame, a.peer, b.peer)])
    else DiffFields(g, a, b, phase, FIELD_COUNT)
  }

  function DiffAll(f: Flags, pairs: seq<Pair>, phase: int): Flags {
    if pairs == [] then f else Diff(DiffAll(f, pairs[..|pairs| - 1], phase), pairs[|pairs| - 1], phase)
  }

  lemma {:induction false} DiffFieldsKeeps(f: Flags, a: Side, b: Side, phase: int, n: nat)
    ensures DiffFields(f, a, b, phase, n).compared == f.compared
  {
    if n > 0 { DiffFieldsKeeps(f, a, b, phase, n - 1); }
  }

  lemma {:induction false} DiffAllCompares(f: Flags, pairs: seq<Pair>, phase: int)
    ensures DiffAll(f, pairs, phase).compared == f.compared + pairs
  {
    hide DiffFields;
    if pairs != [] {
      var n := |pairs| - 1;
      DiffAllCompares(f, pairs[..n], phase);
      var g := DiffAll(f, pairs[..n], phase);
      var (a, b) := pairs[n];
      DiffFieldsKeeps(g.(compared := g.compared + [pairs[n]]), a, b, phase, FIELD_COUNT);
      assert pairs == pairs[..n] + [pairs[n]];
    }
  }

  /** The pairs (i, j), i < j, of a list up to but not including (i, j), in the order of the two loops. */
  function PairsBefore(sides: seq<Side>, i: nat, j: nat): seq<Pair>
    requires i < |sides| && i < j <= |sides|
    decreases i, j
  {
    if j > i + 1 then PairsBefore(sides, i, j - 1) + [(sides[i], sides[j - 1])]
    else if i > 0 then PairsBefore(sides, i - 1, |sides|)
    else []
  }

  function AllPairs(sides: seq<Side>): seq<Pair>
    requires sides != []
  {
    PairsBefore(sides, |sides| - 1, |sides|)
  }

  /** Each two of the sides are compared, the earlier one first. */
  lemma {:induction false} PairsReach(sides: seq<Side>, i: nat, j: nat, a: nat, b: nat)
    requires i < |sides| && i < j <= |sides| && a < b < |sides| && (a < i || (a == i && b < j))
    ensures (sides[a], sides[b]) in PairsBefore(sides, i, j)
    decreases i, j
  {
    if j > i + 1 {
      if (a, b) != (i, j - 1) { PairsReach(sides, i, j - 1, a, b); }
    } else {
      PairsReach(sides, i - 1, |sides|, a, b);
    }
  }

  lemma {:induction false} PairsCount(sides: seq<Side>, i: nat, j: nat)
    requires i < |sides| && i < j <= |sides|
    ensures 2 * |PairsBefore(sides, i, j)| == i * (2 * |sides| - i - 1) + 2 * (j - i - 1)
    decreases i, j
  {
    if j > i + 1 {
      PairsCount(sides, i, j - 1);
    } else if i > 0 {
      PairsCount(sides, i - 1, |sides|);
      OneRowMore(i - 1, 2 * |sides| - i - 1);
    }
  }

  lemma OneRowMore(a: int, b: int)
    ensures (a + 1) * b == a * b + b && a * (b + 1) == a * b + a
  {
  }

  /** In mode B each two digests of a frame are compared, and there are no more comparisons than that. */
  lemma EveryPairOnce(sides: seq<Side>, a: nat, b: nat)
    requires a < b < |sides|
    ensures (sides[a], sides[b]) in AllPairs(sides)
    ensures 2 * |AllPairs(sides)| == |sides| * (|sides| - 1)
  {
    PairsReach(sides, |sides| - 1, |sides|, a, b);
    PairsCount(sides, |sides| - 1, |sides|);
  }

  /** How a role compares the local digest with one peer's. */
  function LocalPair(role: Role, local: Digest, peer: Side): seq<Pair> {
    match role
    case Guest(host) => if peer.peer == host && host.Some? then [(peer, Side(None, local))] else []
    case _ => [(Side(None, local), peer)]
  }

  function EachPair(role: Role, local: Digest, hits: seq<Side>): seq<Pair> {
    if hits == [] then []
    else EachPair(role, local, hits[..|hits| - 1]) + LocalPair(role, local, hits[|hits| - 1])
  }

  /** What a tick's digest is compared with, in order. */
  function TickPairs(role: Role, local: Digest, hits: seq<Side>): seq<Pair> {
    if role.Pairwise? then AllPairs([Side(None, local)] + hits) else EachPair(role, local, hits)
  }

  type Digests = map<int, Digest>

  function Trim(m: Digests, dropFloor: int): Digests {
    map f | f in m && f >= dropFloor :: m[f]
  }

  /** The detector: peers in the order they were first heard from. */
  datatype State = State(peers: seq<Peer>, digests: map<Peer, Digests>, local: Digests, tick: int, flags: Flags)

  function Hits(peers: seq<Peer>, digests: map<Peer, Digests>, frame: int): seq<Side> {
    if peers == [] then []
    else
      var p := peers[|peers| - 1];
      Hits(peers[..|peers| - 1], digests, frame)
      + (if p in digests && frame in digests[p] then [Side(Some(p), digests[p][frame])] else [])
  }

  function Cadence(role: Role): int {
    if role.Pairwise? then 1 else 6
  }

  predicate Stores(role: Role, frame: int, realPeer: bool, replay: bool) {
    realPeer && !replay && frame % Cadence(role) == 0
  }

  function TickStep(s: State, role: Role, frame: int, realPeer: bool, replay: bool, hashes: seq<int>, phase: int): State {
    if !Stores(role, frame, realPeer, replay) then s.(tick := frame)
    else
      var d := Digest(frame, hashes);
      var pairs := TickPairs(role, d, Hits(s.peers, s.digests, frame));
      s.(tick := frame, local := Trim(s.local[frame := d], frame - HISTORY_DEPTH),
         flags := DiffAll(s.flags, pairs, phase))
  }

  function IngestStep(s: State, role: Role, peer: Peer, d: Digest, phase: int): State {
    if d.frame < s.tick - HISTORY_DEPTH then s
    else
      var known := if peer in s.digests then s.digests[peer] else map[];
      s.(peers := if peer in s.digests then s.peers else s.peers + [peer],
         digests := s.digests[peer := Trim(known[d.frame := d], s.tick - HISTORY_DEPTH)],
         flags := if d.frame in s.local
                  then DiffAll(s.flags, LocalPair(role, s.local[d.frame], Side(Some(peer), d)), phase)
                  else s.flags)
  }

  class Detector {
    const role: Role
    var peers: seq<Peer>
    var digests: map<Peer, Digests>
    var local: Digests
    var tick: int
    var last: map<nat, int>
    var events: seq<Event>
    ghost var compared: seq<Pair>

    ghost function Flagged(): Flags
      reads this
    {
      Flags(last, events, compared)
    }

    ghost function Contents(): State
      reads this
    {
      State(peers, digests, local, tick, Flagged())
    }

    /** init: everything but the frame counter is cleared. */
    constructor (role: Role, staleTick: int)
      ensures this.role == role && Contents() == State([], map[], map[], staleTick, Flags(map[], [], []))
    {
      this.role := role;
      peers, digests, local, tick := [], map[], map[], staleTick;
      last, events, compared := map[], [], [];
    }

    method DiffDigests(a: Side, b: Side, phase: int)
      modifies this`last, this`events, this`compared
      ensures Flagged() == Diff(old(Flagged()), (a, b), phase)
    {
      compared := compared + [(a, b)];
      ghost var g := Flagged();
      if HashOf(a.digest, MATCH_PHASE) != HashOf(b.digest, MATCH_PHASE) {
        events := events + [PhaseFlag(a.digest.frame, a.peer, b.peer)];
        return;
      }
      for field := 0 to FIELD_COUNT
        invariant Flagged() == DiffFields(g, a, b, phase, field)
      {
        if field == MATCH_PHASE { continue; }
        if HashOf(a.digest, field) == HashOf(b.digest, field) { continue; }
        if !EligibleInPhase(field, phase) { continue; }
        var lastFlagged := if field in last then last[field] else -1;
        if a.digest.frame - lastFlagged < DEDUP_WINDOW { continue; }
        last := last[field := a.digest.frame];
        events := events + [FieldFlag(a.digest.frame, field, SlotForField(field), a.peer, b.peer)];
      }
    }

    method ComparePairwise(d: Digest, hits: seq<Side>, phase: int)
      modifies this`last, this`events, this`compared
      ensures Flagged() == DiffAll(old(Flagged()), AllPairs([Side(None, d)] + hits), phase)
    {
      hide Diff;
      var all := [Side(None, d)] + hits;
      ghost var f := Flagged();
      for i := 0 to |all|
        invariant Flagged() == if i == 0 then f else DiffAll(f, PairsBefore(all, i - 1, |all|), phase)
      {
        assert PairsBefore(all, i, i + 1) == if i == 0 then [] else PairsBefore(all, i - 1, |all|);
        for j := i + 1 to |all|
          invariant Flagged() == DiffAll(f, PairsBefore(all, i, j), phase)
        {
          ghost var pairs := PairsBefore(all, i, j);
          assert PairsBefore(all, i, j + 1) == pairs + [(all[i], all[j])];
          assert (pairs + [(all[i], all[j])])[..|pairs|] == pairs;
          DiffDigests(all[i], all[j], phase);
        }
      }
    }

    method CompareHostAuth(d: Digest, hits: seq<Side>, phase: int)
      requires !role.Pairwise?
      modifies this`last, this`events, this`compared
      ensures Flagged() == DiffAll(old(Flagged()), EachPair(role, d, hits), phase)
    {
      hide Diff;
      ghost var f := Flagged();
      for i := 0 to |hits|
        invariant Flagged() == DiffAll(f, EachPair(role, d, hits[..i]), phase)
      {
        assert hits[..i + 1][..i] == hits[..i];
        ghost var pairs := EachPair(role, d, hits[..i]);
        CompareWithPeer(d, hits[i], phase);
        assert forall pair: Pair :: (pairs + [pair])[..|pairs|] == pairs;
        assert pairs + [] == pairs;
      }
      assert hits[..|hits|] == hits;
    }

    method CompareWithPeer(d: Digest, peer: Side, phase: int)
      modifies this`last, this`events, this`compared
      ensures Flagged() == DiffAll(old(Flagged()), LocalPair(role, d, peer), phase)
    {
      match role {
        case Guest(host) => if peer.peer == host && host.Some? { DiffDigests(peer, Side(None, d), phase); }
        case _ => DiffDigests(Side(None, d), peer, phase);
      }
    }

    method CompareAtFrame(d: Digest, phase: int)
      modifies this`last, this`events, this`compared
      ensures Flagged() == DiffAll(old(Flagged()), TickPairs(role, d, Hits(peers, digests, d.frame)), phase)
    {
      var hits := [];
      for i := 0 to |peers|
        invariant hits == Hits(peers[..i], digests, d.frame)
      {
        assert peers[..i + 1][..i] == peers[..i];
        if peers[i] in digests && d.frame in digests[peers[i]] {
          hits := hits + [Side(Some(peers[i]), digests[peers[i]][d.frame])];
        }
      }
      assert peers[..|peers|] == peers;
      if role.Pairwise? {
        ComparePairwise(d, hits, phase);
      } else {
        CompareHostAuth(d, hits, phase);
      }
    }

    method Tick(frame: int, realPeer: bool, replay: bool, hashes: seq<int>, phase: int)
      modifies this
      ensures Contents() == TickStep(old(Contents()), role, frame, realPeer, replay, hashes, phase)
      ensures tick == frame
      ensures if realPeer && !replay && (role.Pairwise? || frame % 6 == 0)
              then && frame in local && local[frame] == Digest(frame, hashes)
                   && (forall f :: f in local <==> f == frame || (f in old(local) && f >= frame - 60))
                   && compared == old(compared) + TickPairs(role, Digest(frame, hashes), Hits(peers, digests, frame))
              else local == old(local) && compared == old(compared) && events == old(events)
    {
      hide TickPairs, DiffAll, Hits;
      tick := frame;
      if !realPeer { return; }
      if !replay && frame % Cadence(role) != 0 { return; }
      if replay { return; }
      var d := Digest(frame, hashes);
      local := local[frame := d];
      local := Trim(local, frame - HISTORY_DEPTH);
      DiffAllCompares(Flagged(), TickPairs(role, d, Hits(peers, digests, frame)), phase);
      CompareAtFrame(d, phase);
    }

    method OnPeerDigest(peer: Peer, d: Digest, phase: int)
      modifies this
      ensures Contents() == IngestStep(old(Contents()), role, peer, d, phase)
      ensures d.frame >= tick - 60 ==>
                && peer in digests && d.frame in digests[peer] && digests[peer][d.frame] == d
                && forall f :: f in digests[peer] ==> f >= tick - 60
      ensures d.frame < tick - 60 ==> Contents() == old(Contents())
    {
      hide DiffAll, LocalPair;
      var dropFloor := tick - HISTORY_DEPTH;
      if d.frame < dropFloor { return; }
      if peer !in digests {
        peers := peers + [peer];
        digests := digests[peer := map[]];
      }
      digests := digests[peer := Trim(digests[peer][d.frame := d], dropFloor)];
      if d.frame in local {
        CompareWithPeer(local[d.frame], Side(Some(peer), d), phase);
      }
    }
  }
}
