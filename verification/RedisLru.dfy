/**
 * That the Redis variant is a least-recently-used cache: with one caller, no lost connection and a
 * clock that moves between operations it answers as a specification does that knows nothing of
 * scores, only when each key was put and which keys were touched, in order.
 */
module RedisLru {
  import opened Basics
  import opened Wrappers
  import opened StateCache
  import opened RedisCache

  /** The specification's state: the last put of every key, and every key touched, in order. */
  datatype Memory = Memory(puts: Blobs, touches: seq<Key>)

  /** A key is a hit for an hour after its put, until fifty others were touched since its last touch. */
  predicate Served(m: Memory, key: Key, now: real) {
    key in m.puts && now < m.puts[key].at + 3600.0 && |Since(m.touches, key)| < 50
  }

  function Recall(m: Memory, op: RedisCache.Op, now: real): Memory {
    match op
    case Get(key, _) => if Served(m, key, now) then m.(touches := m.touches + [key]) else m
    case Put(key, body, _) => Memory(m.puts[key := Blob(body, now)], m.touches + [key])
    case Wait(_) => m
  }

  /** After the first n operations. */
  function Recalled(ks: seq<RedisCache.Kept>, ops: seq<RedisCache.Op>, n: nat): Memory
    requires n <= |ops| < |ks|
  {
    if n == 0 then Memory(map[], []) else Recall(Recalled(ks, ops, n - 1), ops[n - 1], ks[n - 1].now)
  }

  /** Every connection lasts. */
  predicate AllSucceed(ops: seq<RedisCache.Op>) {
    forall i :: 0 <= i < |ops| && !ops[i].Wait? ==> ops[i].lost.Never?
  }

  /** No two gets or puts happen at the same instant. */
  predicate Ticking(ks: seq<RedisCache.Kept>, ops: seq<RedisCache.Op>)
    requires |ops| < |ks|
  {
    forall i, j :: 0 <= i < j < |ops| && !ops[i].Wait? && !ops[j].Wait? ==> ks[i].now < ks[j].now
  }

  // ── The order of touches ──────────────────────────────────────────────────

  lemma {:induction false} SinceAreTouched(touches: seq<Key>, key: Key)
    ensures forall k :: k in Since(touches, key) ==> k in touches && k != key
  {
    if touches != [] && touches[|touches| - 1] != key {
      SinceAreTouched(touches[..|touches| - 1], key);
    }
  }

  /** Of two touched keys one was touched last. */
  lemma {:induction false} OneIsLater(touches: seq<Key>, x: Key, y: Key)
    requires x in touches && y in touches && x != y
    ensures y in Since(touches, x) <==> x !in Since(touches, y)
  {
    var n := |touches| - 1;
    var last := touches[n];
    assert touches == touches[..n] + [last];
    if last == x || last == y {
      UntouchedSince(touches[..n], if last == x then y else x);
    } else {
      OneIsLater(touches[..n], x, y);
    }
  }

  lemma UntouchedSince(touches: seq<Key>, key: Key)
    ensures key !in Since(touches, key)
  {
    SinceAreTouched(touches, key);
  }

  // ── What the scores say ───────────────────────────────────────────────────

  /** Scores are in the order of the last touches, and whatever was touched after an indexed key is indexed. */
  ghost predicate InOrder(lru: Index, touches: seq<Key>) {
    && (forall x :: x in lru ==> x in touches && Since(touches, x) <= lru.Keys)
    && (forall x, y :: x in lru && y in lru && x != y ==> (lru[x] < lru[y] <==> y in Since(touches, x)))
  }

  /** The blobs are the last puts; one that has not expired is indexed, or fifty others were touched since. */
  ghost predicate Remembers(blobs: Blobs, lru: Index, m: Memory, now: real) {
    && (forall x :: x in blobs ==> x in m.puts && m.puts[x] == blobs[x])
    && (forall x :: x in lru && x in m.puts ==> m.puts[x].at <= lru[x])
    && (forall x :: Unexpired(m, x, now) && x in lru ==> x in blobs)
    && (forall x :: Unexpired(m, x, now) && x !in lru ==> |Since(m.touches, x)| >= 50)
  }

  predicate Unexpired(m: Memory, key: Key, now: real) {
    key in m.puts && now < m.puts[key].at + TTL
  }

  ghost predicate Represents(k: RedisCache.Kept, m: Memory) {
    KeptOk(k) && |k.lru| <= MAX_ENTRIES && InOrder(k.lru, m.touches) && Remembers(k.blobs, k.lru, m, k.now)
  }

  lemma ServedIffLive(k: RedisCache.Kept, m: Memory, key: Key)
    requires Represents(k, m)
    ensures Served(m, key, k.now) <==> Live(k.blobs, key, k.now)
    ensures Live(k.blobs, key, k.now) ==> key in k.lru && m.puts[key] == k.blobs[key]
  {
    if Live(k.blobs, key, k.now) {
      UntouchedSince(m.touches, key);
      assert |k.lru| == |k.lru.Keys|;
      SubsetSize(Since(m.touches, key), k.lru.Keys - {key});
    }
    hide Since, IsLowest;
  }

  /** A touch puts its key last. */
  lemma TouchedInOrder(lru: Index, touches: seq<Key>, key: Key, now: real)
    requires InOrder(lru, touches) && forall x :: x in lru ==> lru[x] < now
    ensures InOrder(lru[key := now], touches + [key])
  {
    var lru', touches' := lru[key := now], touches + [key];
    forall x | x in lru' ensures Since(touches', x) == if x == key then {} else Since(touches, x) + {key} {
      SinceSnoc(touches, key, x);
    }
    hide Since;
    assert lru'.Keys == lru.Keys + {key};
  }

  lemma GrowsSince(touches: seq<Key>, key: Key, x: Key)
    requires x != key
    ensures |Since(touches, x)| <= |Since(touches + [key], x)|
  {
    SinceSnoc(touches, key, x);
    SubsetSize(Since(touches, x), Since(touches + [key], x));
  }

  lemma HitRemembers(blobs: Blobs, lru: Index, m: Memory, key: Key, now: real)
    requires Remembers(blobs, lru, m, now) && Past(blobs, lru, now) && key in lru
    requires forall x :: x in lru ==> lru[x] < now
    ensures Remembers(blobs, lru[key := now], m.(touches := m.touches + [key]), now)
  {
    var lru' := lru[key := now];
    forall x | Unexpired(m, x, now) && x !in lru' ensures |Since(m.touches + [key], x)| >= 50 {
      GrowsSince(m.touches, key, x);
    }
    hide Since;
  }

  lemma HitRepresents(k: RedisCache.Kept, m: Memory, key: Key)
    requires Represents(k, m) && Live(k.blobs, key, k.now) && key in k.lru
    requires forall x :: x in k.lru ==> k.lru[x] < k.now
    ensures Represents(k.(lru := k.lru[key := k.now]), m.(touches := m.touches + [key]))
  {
    var lru' := k.lru[key := k.now];
    OpKeepsOk(k, RedisCache.Get(key, Never), k.(lru := lru'));
    TouchedInOrder(k.lru, m.touches, key, k.now);
    HitRemembers(k.blobs, k.lru, m, key, k.now);
    hide InOrder, Remembers, KeptOk;
    assert lru'.Keys == k.lru.Keys;
    assert |lru'| == |lru'.Keys| == |k.lru.Keys| == |k.lru|;
  }

  /** The pipeline's first two commands: the blob and its score. */
  lemma StoredRemembers(blobs: Blobs, lru: Index, m: Memory, key: Key, blob: Blob)
    requires Remembers(blobs, lru, m, blob.at) && Past(blobs, lru, blob.at)
    ensures Remembers(blobs[key := blob], lru[key := blob.at], Memory(m.puts[key := blob], m.touches + [key]), blob.at)
  {
    var m' := Memory(m.puts[key := blob], m.touches + [key]);
    forall x | Unexpired(m', x, blob.at) && x !in lru[key := blob.at] ensures |Since(m'.touches, x)| >= 50 {
      assert Unexpired(m, x, blob.at);
      GrowsSince(m.touches, key, x);
    }
    hide Since;
  }

  /** The third: what it drops is older than any blob that has not expired. */
  lemma TrimRepresents(blobs: Blobs, lru: Index, m: Memory, now: real)
    requires InOrder(lru, m.touches) && Remembers(blobs, lru, m, now) && forall x :: x in lru ==> 0.0 <= lru[x]
    ensures InOrder(Trim(lru, now), m.touches) && Remembers(blobs, Trim(lru, now), m, now)
  {
    var lru' := Trim(lru, now);
    forall x | x in lru' ensures Since(m.touches, x) <= lru'.Keys {
      LaterStay(lru, lru', m.touches, x);
    }
    hide Since;
    assert InOrder(lru', m.touches);
    hide InOrder;
  }

  /** If a part of the index has every score at or past one of its own, what was touched since is in it. */
  lemma LaterStay(lru: Index, lru': Index, touches: seq<Key>, x: Key)
    requires InOrder(lru, touches) && x in lru && forall y :: y in lru && lru[x] < lru[y] ==> y in lru'
    ensures Since(touches, x) <= lru'.Keys
  {
    UntouchedSince(touches, x);
    hide Since;
  }

  lemma StaleAreOlder(lru: Index, touches: seq<Key>, stale: set<Key>, x: Key, y: Key)
    requires InOrder(lru, touches) && IsLowest(stale, lru, Excess(lru)) && x in stale && y in lru && y !in stale
    ensures y in Since(touches, x) && lru[x] < lru[y]
  {
    OneIsLater(touches, x, y);
    hide Since;
  }

  lemma StaleAreForgotten(lru: Index, touches: seq<Key>, stale: set<Key>, x: Key)
    requires InOrder(lru, touches) && IsLowest(stale, lru, Excess(lru)) && x in stale
    ensures |Since(touches, x)| >= 50
  {
    forall y | y in lru && y !in stale ensures y in Since(touches, x) {
      StaleAreOlder(lru, touches, stale, x, y);
    }
    hide Since, InOrder;
    SubsetSize(lru.Keys - stale, Since(touches, x));
    SubsetSize({x}, stale);
    assert |lru| == |lru.Keys| && |lru.Keys - stale| == |lru.Keys| - |stale|;
  }

  lemma EvictionInOrder(lru: Index, touches: seq<Key>, stale: set<Key>)
    requires InOrder(lru, touches) && IsLowest(stale, lru, Excess(lru))
    ensures InOrder(lru - stale, touches)
  {
    var lru' := lru - stale;
    forall x | x in lru' ensures Since(touches, x) <= lru'.Keys {
      forall y | y in lru && lru[x] < lru[y] ensures y in lru' {
        if y in stale { StaleAreOlder(lru, touches, stale, y, x); }
      }
      LaterStay(lru, lru', touches, x);
    }
    hide Since, IsLowest;
  }

  lemma EvictionRemembers(blobs: Blobs, lru: Index, m: Memory, stale: set<Key>, now: real)
    requires Remembers(blobs, lru, m, now) && forall x :: x in stale ==> |Since(m.touches, x)| >= 50
    ensures Remembers(blobs - stale, lru - stale, m, now)
  {
    hide Since;
  }

  /** Eviction takes the keys touched longest ago, and fifty are left that were touched since. */
  lemma EvictionRepresents(blobs: Blobs, lru: Index, m: Memory, stale: set<Key>, now: real)
    requires InOrder(lru, m.touches) && Remembers(blobs, lru, m, now) && IsLowest(stale, lru, Excess(lru))
    ensures InOrder(lru - stale, m.touches) && Remembers(blobs - stale, lru - stale, m, now)
    ensures |lru - stale| <= MAX_ENTRIES
  {
    WithoutStale(lru, stale);
    EvictionInOrder(lru, m.touches, stale);
    forall x | x in stale ensures |Since(m.touches, x)| >= 50 {
      StaleAreForgotten(lru, m.touches, stale, x);
    }
    hide InOrder, Remembers, IsLowest, Since;
    EvictionRemembers(blobs, lru, m, stale, now);
  }

  lemma PipelineRepresents(blobs: Blobs, lru: Index, m: Memory, key: Key, blob: Blob)
    requires InOrder(lru, m.touches) && Remembers(blobs, lru, m, blob.at) && Past(blobs, lru, blob.at)
    requires forall x :: x in lru ==> lru[x] < blob.at
    ensures InOrder(Trim(lru[key := blob.at], blob.at), m.touches + [key])
    ensures Remembers(blobs[key := blob], Trim(lru[key := blob.at], blob.at),
                      Memory(m.puts[key := blob], m.touches + [key]), blob.at)
  {
    var scored := lru[key := blob.at];
    StoredRemembers(blobs, lru, m, key, blob);
    TouchedInOrder(lru, m.touches, key, blob.at);
    assert forall x :: x in scored ==> 0.0 <= scored[x];
    hide InOrder, Remembers, Trim;
    TrimRepresents(blobs[key := blob], scored, Memory(m.puts[key := blob], m.touches + [key]), blob.at);
  }

  lemma PutRepresents(k: RedisCache.Kept, m: Memory, key: Key, body: Body, k': RedisCache.Kept)
    requires Represents(k, m) && OpLeaves(k, RedisCache.Put(key, body, Never), k')
    requires forall x :: x in k.lru ==> k.lru[x] < k.now
    ensures Represents(k', Memory(m.puts[key := Blob(body, k.now)], m.touches + [key]))
  {
    var blob := Blob(body, k.now);
    OpKeepsOk(k, RedisCache.Put(key, body, Never), k');
    PipelineRepresents(k.blobs, k.lru, m, key, blob);
    var stale :| PutChose(k.blobs, k.lru, key, blob, Never, stale, k'.blobs, k'.lru);
    hide InOrder, Remembers, IsLowest, Trim, KeptOk;
    EvictionRepresents(k.blobs[key := blob], Trim(k.lru[key := k.now], k.now),
                       Memory(m.puts[key := blob], m.touches + [key]), stale, k.now);
  }

  lemma WaitRepresents(k: RedisCache.Kept, m: Memory, later: real)
    requires Represents(k, m) && later >= k.now
    ensures Represents(k.(now := later), m)
  {
    Ages(k.blobs, k.lru, {}, k.now, later);
    hide InOrder, Since;
  }

  // ── Every run ─────────────────────────────────────────────────────────────

  /** The scores are the instants of past operations. */
  lemma {:induction false} ScoresArePast(ks: seq<RedisCache.Kept>, ops: seq<RedisCache.Op>, n: nat, x: Key) returns (i: nat)
    requires IsSerial(ks, ops) && n <= |ops| && x in ks[n].lru
    ensures i < n && !ops[i].Wait? && ks[n].lru[x] == ks[i].now
  {
    assert OpLeaves(ks[n - 1], ops[n - 1], ks[n - 1 + 1]);
    var before := ks[n - 1];
    hide IsLowest;
    if x in before.lru && before.lru[x] == ks[n].lru[x] {
      i := ScoresArePast(ks, ops, n - 1, x);
    } else {
      i := n - 1;
    }
  }

  lemma {:induction false} SerialRepresents(ks: seq<RedisCache.Kept>, ops: seq<RedisCache.Op>, n: nat)
    requires IsSerial(ks, ops) && AllSucceed(ops) && Ticking(ks, ops) && n <= |ops|
    ensures Represents(ks[n], Recalled(ks, ops, n))
  {
    hide Represents, OpLeaves;
    if n == 0 {
      EmptyRepresents(ks[0]);
    } else {
      SerialRepresents(ks, ops, n - 1);
      var k, k', m, op := ks[n - 1], ks[n], Recalled(ks, ops, n - 1), ops[n - 1];
      assert OpLeaves(k, op, ks[n - 1 + 1]);
      if !op.Wait? {
        forall x | x in k.lru ensures k.lru[x] < k.now {
          var i := ScoresArePast(ks, ops, n - 1, x);
        }
      }
      OpRepresents(k, m, op, k');
    }
  }

  lemma EmptyRepresents(k: RedisCache.Kept)
    requires k == RedisCache.Kept(map[], map[], k.now) && k.now >= 0.0
    ensures Represents(k, Memory(map[], []))
  {
  }

  lemma OpRepresents(k: RedisCache.Kept, m: Memory, op: RedisCache.Op, k': RedisCache.Kept)
    requires Represents(k, m) && OpLeaves(k, op, k') && (!op.Wait? ==> op.lost.Never?)
    requires !op.Wait? ==> forall x :: x in k.lru ==> k.lru[x] < k.now
    ensures Represents(k', Recall(m, op, k.now))
  {
    hide Represents, Served;
    match op {
      case Get(key, lost) =>
        ServedIffLive(k, m, key);
        if Live(k.blobs, key, k.now) { HitRepresents(k, m, key); }
      case Put(key, body, lost) => PutRepresents(k, m, key, body, k');
      case Wait(later) => WaitRepresents(k, m, k'.now);
    }
  }

  /**
   * Over every run of gets, puts and time passing, a key is live, so that a get would return its
   * last put, exactly for an hour from that put and until fifty other keys have been put or hit
   * since it was itself last put or hit.
   */
  lemma RedisIsLru(ks: seq<RedisCache.Kept>, ops: seq<RedisCache.Op>, n: nat, key: Key)
    requires IsSerial(ks, ops) && AllSucceed(ops) && Ticking(ks, ops) && n <= |ops|
    ensures Live(ks[n].blobs, key, ks[n].now) <==> Served(Recalled(ks, ops, n), key, ks[n].now)
    ensures Live(ks[n].blobs, key, ks[n].now) ==> ks[n].blobs[key] == Recalled(ks, ops, n).puts[key]
    ensures |ks[n].lru| <= 50
  {
    SerialRepresents(ks, ops, n);
    ServedIffLive(ks[n], Recalled(ks, ops, n), key);
  }

  /** And a put that drops a live key drops one touched longer ago than every key it keeps. */
  lemma EvictedLongestUntouched(ks: seq<RedisCache.Kept>, ops: seq<RedisCache.Op>, n: nat, out: Key, stays: Key)
    requires IsSerial(ks, ops) && AllSucceed(ops) && Ticking(ks, ops) && n < |ops| && ops[n].Put?
    requires Live(ks[n].blobs, out, ks[n].now) && !Live(ks[n + 1].blobs, out, ks[n + 1].now)
    requires Live(ks[n + 1].blobs, stays, ks[n + 1].now)
    ensures stays in Since(Recalled(ks, ops, n + 1).touches, out)
  {
    SerialRepresents(ks, ops, n);
    SerialRepresents(ks, ops, n + 1);
    assert OpLeaves(ks[n], ops[n], ks[n + 1]);
    hide Represents, OpLeaves, IsLowest;
    StaysBehind(ks[n], Recalled(ks, ops, n), ops[n], ks[n + 1], out, stays);
  }

  lemma StaysBehind(k: RedisCache.Kept, m: Memory, op: RedisCache.Op, k': RedisCache.Kept, out: Key, stays: Key)
    requires op.Put? && k'.now == k.now && Represents(k, m) && Represents(k', Recall(m, op, k.now))
    requires Live(k.blobs, out, k.now) && !Live(k'.blobs, out, k.now) && Live(k'.blobs, stays, k.now)
    ensures stays in Since(Recall(m, op, k.now).touches, out)
  {
    var m' := Recall(m, op, k.now);
    ServedIffLive(k, m, out);
    ServedIffLive(k', m', stays);
    hide Represents, Since;
    assert Unexpired(m', out, k.now) && out in m'.touches by { TouchedOnce(k, m, out); }
    OffIndex(k', m', out);
    SinceIndexed(k', m', stays);
    OneIsLater(m'.touches, stays, out);
  }

  lemma OffIndex(k: RedisCache.Kept, m: Memory, key: Key)
    requires Represents(k, m) && Unexpired(m, key, k.now) && !Live(k.blobs, key, k.now)
    ensures key !in k.lru
  {
    hide InOrder, KeptOk;
  }

  lemma SinceIndexed(k: RedisCache.Kept, m: Memory, key: Key)
    requires Represents(k, m) && key in k.lru
    ensures key in m.touches && Since(m.touches, key) <= k.lru.Keys
  {
    hide Remembers, KeptOk;
  }

  lemma TouchedOnce(k: RedisCache.Kept, m: Memory, key: Key)
    requires Represents(k, m) && Live(k.blobs, key, k.now)
    ensures key in m.touches && Unexpired(m, key, k.now)
  {
    ServedIffLive(k, m, key);
    SinceIndexed(k, m, key);
    hide InOrder, KeptOk;
  }
}
