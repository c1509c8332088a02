/**
 * The Redis variant of the save-state cache (server/src/state_cache.py): blobs with a time to
 * live and a sorted set of last touches. A command takes effect at the instant its caller read
 * the clock; the connection may be lost before or after any of them.
 */
module RedisCache {
  import opened Basics
  import opened Wrappers
  import opened StateCache

  datatype Blob = Blob(body: Body, at: real)

  type Blobs = map<Key, Blob>
  type Index = map<Key, real>

  predicate Live(blobs: Blobs, key: Key, now: real) {
    key in blobs && now < blobs[key].at + TTL
  }

  function LiveKeys(blobs: Blobs, now: real): set<Key> {
    set key | key in blobs && Live(blobs, key, now)
  }

  /** zremrangebyscore from 0: every score at least one TTL old goes. */
  function Trim(lru: Index, now: real): Index {
    map key | key in lru && !(0.0 <= lru[key] <= now - TTL) :: lru[key]
  }

  /** zrange from 0: n members, none with a higher score than one left out. */
  ghost predicate IsLowest(stale: set<Key>, lru: Index, n: nat) {
    && stale <= lru.Keys && |stale| == (if n <= |lru| then n else |lru|)
    && forall x, y :: x in stale && y in lru && y !in stale ==> lru[x] <= lru[y]
  }

  /** Every live blob but the excused is in the index, with a score no older than the blob. */
  ghost predicate Indexed(blobs: Blobs, lru: Index, excused: set<Key>, now: real) {
    forall key :: Live(blobs, key, now) && key !in excused ==> key in lru && blobs[key].at <= lru[key]
  }

  /** Nothing was stored or touched later than now, and no time is before the epoch. */
  ghost predicate Past(blobs: Blobs, lru: Index, now: real) {
    && 0.0 <= now
    && (forall key :: key in blobs ==> blobs[key].at <= now)
    && (forall key :: key in lru ==> 0.0 <= lru[key] <= now)
  }

  lemma LiveAreIndexed(blobs: Blobs, lru: Index, now: real)
    requires Indexed(blobs, lru, {}, now)
    ensures |LiveKeys(blobs, now)| <= |lru|
  {
    assert |lru| == |lru.Keys|;
    SubsetSize(LiveKeys(blobs, now), lru.Keys);
  }

  /** A hit touches its key, if the connection lasts that long. */
  function LruAfterGet(blobs: Blobs, lru: Index, key: Key, now: real, lost: Lost): Index {
    if Live(blobs, key, now) && Reached(lost, 2) then lru[key := now] else lru
  }

  // ── One caller at a time ──────────────────────────────────────────────────

  /** The commands a put sends, and how many of them took effect before the connection was lost. */
  datatype Lost = Never | After(commands: nat)

  predicate Reached(lost: Lost, command: nat) {
    lost.Never? || lost.commands >= command
  }

  class Redis {
    var blobs: Blobs
    var lru: Index

    ghost predicate Valid(now: real)
      reads this
    {
      Indexed(blobs, lru, {}, now) && Past(blobs, lru, now)
    }

    constructor ()
      ensures blobs == map[] && lru == map[]
    {
      blobs, lru := map[], map[];
    }

    method Get(key: Key, now: real, lost: Lost) returns (body: Option<Body>)
      modifies this
      ensures old(Valid(now)) ==> Valid(now)
      ensures blobs == old(blobs) && lru == LruAfterGet(blobs, old(lru), key, now, lost)
      ensures body == if Live(blobs, key, now) && lost.Never? then Some(blobs[key].body) else None
      ensures body.Some? ==> key in lru && lru[key] == now
      ensures forall k :: k != key ==> (k in lru <==> k in old(lru)) && (k in lru ==> lru[k] == old(lru)[k])
    {
      if !Reached(lost, 1) || !Live(blobs, key, now) { return None; }
      if Reached(lost, 2) { lru := lru[key := now]; }
      return if lost.Never? then Some(blobs[key].body) else None;
    }

    /** zrange: takes the lowest scores one by one. */
    method Lowest(n: nat) returns (stale: set<Key>)
      ensures IsLowest(stale, lru, n)
    {
      stale := {};
      while |stale| < n && stale < lru.Keys
        invariant IsLowest(stale, lru, |stale|) && |stale| <= n
        decreases n - |stale|
      {
        SubsetSize(stale, lru.Keys);
        var rest := lru.Keys - stale;
        var x := LowestOf(rest);
        SubsetSize(stale + {x}, lru.Keys);
        stale := stale + {x};
      }
      SubsetSize(stale, lru.Keys);
      assert |lru| == |lru.Keys|;
      if |stale| < n { assert stale == lru.Keys; }
    }

    method LowestOf(keys: set<Key>) returns (x: Key)
      requires keys <= lru.Keys && keys != {}
      ensures x in keys && forall y :: y in keys ==> lru[x] <= lru[y]
    {
      x :| x in keys;
      var todo := keys - {x};
      while todo != {}
        invariant x in keys && todo <= keys
        invariant forall y :: y in keys && y !in todo ==> lru[x] <= lru[y]
        decreases |todo|
      {
        var y :| y in todo;
        if lru[y] < lru[x] { x := y; }
        todo := todo - {y};
      }
    }

    method Put(key: Key, body: Body, now: real, lost: Lost) returns (ok: bool)
      modifies this
      ensures old(Valid(now)) ==> Valid(now) && (ok ==> |LiveKeys(blobs, now)| <= MAX_ENTRIES)
      ensures PutLeaves(old(blobs), old(lru), key, Blob(body, now), lost, blobs, lru)
      ensures ok <==> lost.Never?
    {
      ok := lost.Never?;
      ghost var wasBlobs, wasLru := blobs, lru;
      if !Reached(lost, 1) { return; }
      blobs := blobs[key := Blob(body, now)];
      lru := Trim(lru[key := now], now);
      var count := |lru|;
      ghost var chosen := {};
      if count > MAX_ENTRIES && Reached(lost, 3) {
        var stale := Lowest(count - MAX_ENTRIES);
        chosen := stale;
        if stale != {} {
          if Reached(lost, 4) { blobs := blobs - stale; }
          if Reached(lost, 5) { lru := lru - stale; }
        }
      }
      assert PutChose(wasBlobs, wasLru, key, Blob(body, now), lost, chosen, blobs, lru);
      if Indexed(wasBlobs, wasLru, {}, now) && Past(wasBlobs, wasLru, now) {
        PutKeepsIndexed(wasBlobs, wasLru, key, Blob(body, now), lost, blobs, lru);
        if ok { SuccessfulPutBounds(wasBlobs, wasLru, key, Blob(body, now), blobs, lru); }
      }
    }
  }

  /**
   * The blobs and index after a put, as far as it got: the pipeline is one command, then the
   * count, the choice of the stalest, the deletion of their blobs and of their index entries.
   */
  ghost predicate PutLeaves(blobs: Blobs, lru: Index, key: Key, blob: Blob, lost: Lost, blobs': Blobs, lru': Index) {
    if !Reached(lost, 1) then blobs' == blobs && lru' == lru
    else exists stale :: PutChose(blobs, lru, key, blob, lost, stale, blobs', lru')
  }

  ghost predicate PutChose(
    blobs: Blobs, lru: Index, key: Key, blob: Blob, lost: Lost, stale: set<Key>, blobs': Blobs, lru': Index)
  {
    var stored, indexed := blobs[key := blob], Trim(lru[key := blob.at], blob.at);
    && (Reached(lost, 4) ==> IsLowest(stale, indexed, Excess(indexed)))
    && blobs' == (if Reached(lost, 4) then stored - stale else stored)
    && lru' == (if Reached(lost, 5) then indexed - stale else indexed)
  }

  function Excess(lru: Index): nat {
    if |lru| > MAX_ENTRIES then |lru| - MAX_ENTRIES else 0
  }

  /** Time passing only shrinks what must be indexed. */
  lemma Ages(blobs: Blobs, lru: Index, excused: set<Key>, now: real, later: real)
    requires Indexed(blobs, lru, excused, now) && Past(blobs, lru, now) && now <= later
    ensures Indexed(blobs, lru, excused, later) && Past(blobs, lru, later)
  {
  }

  lemma PipelineKeepsIndexed(blobs: Blobs, lru: Index, key: Key, blob: Blob)
    requires Indexed(blobs, lru, {}, blob.at) && Past(blobs, lru, blob.at)
    ensures var lru' := Trim(lru[key := blob.at], blob.at);
            Indexed(blobs[key := blob], lru', {}, blob.at) && Past(blobs[key := blob], lru', blob.at)
  {
  }

  lemma EvictionKeepsIndexed(blobs: Blobs, lru: Index, stale: set<Key>, now: real)
    requires Indexed(blobs, lru, {}, now) && Past(blobs, lru, now)
    ensures Indexed(blobs - stale, lru, {}, now) && Past(blobs - stale, lru, now)
    ensures Indexed(blobs - stale, lru - stale, {}, now) && Past(blobs - stale, lru - stale, now)
  {
  }

  /** Wherever the connection is lost, every live blob is still in the index. */
  lemma PutKeepsIndexed(
    blobs: Blobs, lru: Index, key: Key, blob: Blob, lost: Lost, blobs': Blobs, lru': Index)
    requires Indexed(blobs, lru, {}, blob.at) && Past(blobs, lru, blob.at)
    requires PutLeaves(blobs, lru, key, blob, lost, blobs', lru')
    ensures Indexed(blobs', lru', {}, blob.at) && Past(blobs', lru', blob.at)
  {
    hide IsLowest, Indexed, Past, Trim;
    if Reached(lost, 1) {
      var stale :| PutChose(blobs, lru, key, blob, lost, stale, blobs', lru');
      PipelineKeepsIndexed(blobs, lru, key, blob);
      EvictionKeepsIndexed(blobs[key := blob], Trim(lru[key := blob.at], blob.at), stale, blob.at);
    }
  }

  /** A put that reports success leaves at most fifty live blobs. */
  lemma SuccessfulPutBounds(
    blobs: Blobs, lru: Index, key: Key, blob: Blob, blobs': Blobs, lru': Index)
    requires Indexed(blobs, lru, {}, blob.at) && Past(blobs, lru, blob.at)
    requires PutLeaves(blobs, lru, key, blob, Never, blobs', lru')
    ensures |LiveKeys(blobs', blob.at)| <= |lru'| <= MAX_ENTRIES
  {
    PutKeepsIndexed(blobs, lru, key, blob, Never, blobs', lru');
    LiveAreIndexed(blobs', lru', blob.at);
    var stale :| PutChose(blobs, lru, key, blob, Never, stale, blobs', lru');
    WithoutStale(Trim(lru[key := blob.at], blob.at), stale);
  }

  /** A put leaves no index entry untouched for an hour, and of the others drops only what it evicts. */
  lemma PutTrims(blobs: Blobs, lru: Index, key: Key, blob: Blob, lost: Lost, blobs': Blobs, lru': Index)
    requires Past(blobs, lru, blob.at) && Reached(lost, 1) && PutLeaves(blobs, lru, key, blob, lost, blobs', lru')
    ensures key in lru' ==> lru'[key] == blob.at
    ensures forall x :: x in lru' && x != key ==> x in lru && lru'[x] == lru[x] && blob.at - 3600.0 < lru[x]
    ensures forall x :: x in lru && x !in lru' && x != key ==> lru[x] <= blob.at - 3600.0 || |Trim(lru[key := blob.at], blob.at)| > 50
  {
    var stale :| PutChose(blobs, lru, key, blob, lost, stale, blobs', lru');
    var indexed := Trim(lru[key := blob.at], blob.at);
    if Reached(lost, 5) && |indexed| <= 50 { assert stale == {}; }
    hide IsLowest;
  }

  lemma WithoutStale(indexed: Index, stale: set<Key>)
    requires IsLowest(stale, indexed, Excess(indexed))
    ensures |indexed - stale| <= MAX_ENTRIES
  {
    var rest := indexed - stale;
    assert |rest| == |rest.Keys| && |indexed| == |indexed.Keys|;
    assert rest.Keys == indexed.Keys - stale;
  }

  /** Its own blob is among them, unless another key was touched at that very instant. */
  lemma OwnBlobStays(blobs: Blobs, lru: Index, key: Key, blob: Blob, lost: Lost, blobs': Blobs, lru': Index)
    requires Reached(lost, 1) && PutLeaves(blobs, lru, key, blob, lost, blobs', lru')
    requires forall k :: k in lru && k != key ==> lru[k] < blob.at
    ensures key in blobs' && blobs'[key] == blob
  {
    var stale :| PutChose(blobs, lru, key, blob, lost, stale, blobs', lru');
    if Reached(lost, 4) && key in stale {
      NotTheNewest(Trim(lru[key := blob.at], blob.at), stale, key);
      assert false;
    }
  }

  lemma NotTheNewest(indexed: Index, stale: set<Key>, key: Key)
    requires IsLowest(stale, indexed, Excess(indexed)) && key in indexed
    requires forall k :: k in indexed && k != key ==> indexed[k] < indexed[key]
    ensures key !in stale
  {
    assert |indexed| == |indexed.Keys|;
    if stale == indexed.Keys {
      assert false;
    }
    var y :| y in indexed && y !in stale;
  }

  /** What one caller does, one operation after the other, and time passing in between. */
  datatype Op = Get(key: Key, lost: Lost) | Put(key: Key, body: Body, lost: Lost) | Wait(later: real)

  datatype Kept = Kept(blobs: Blobs, lru: Index, now: real)

  ghost predicate OpLeaves(k: Kept, op: Op, k': Kept) {
    match op
    case Get(key, lost) => k' == k.(lru := LruAfterGet(k.blobs, k.lru, key, k.now, lost))
    case Put(key, body, lost) =>
      k'.now == k.now && PutLeaves(k.blobs, k.lru, key, Blob(body, k.now), lost, k'.blobs, k'.lru)
    case Wait(later) => k' == k.(now := if later >= k.now then later else k.now)
  }

  ghost predicate IsSerial(ks: seq<Kept>, ops: seq<Op>) {
    && |ks| == |ops| + 1
    && ks[0] == Kept(map[], map[], ks[0].now) && ks[0].now >= 0.0
    && forall i :: 0 <= i < |ops| ==> OpLeaves(ks[i], ops[i], ks[i + 1])
  }

  ghost predicate KeptOk(k: Kept) {
    Indexed(k.blobs, k.lru, {}, k.now) && Past(k.blobs, k.lru, k.now)
  }

  lemma OpKeepsOk(k: Kept, op: Op, k': Kept)
    requires KeptOk(k) && OpLeaves(k, op, k')
    ensures KeptOk(k')
  {
    hide PutLeaves;
    match op
    case Get(key, lost) =>
    case Put(key, body, lost) => PutKeepsIndexed(k.blobs, k.lru, key, Blob(body, k.now), lost, k'.blobs, k'.lru);
    case Wait(later) => Ages(k.blobs, k.lru, {}, k.now, k'.now);
  }

  /**
   * With one caller, over every run of gets, puts that may fail anywhere, and time passing,
   * every unexpired blob is in the index.
   */
  lemma {:induction false} SerialKeepsIndexed(ks: seq<Kept>, ops: seq<Op>, n: nat)
    requires IsSerial(ks, ops) && n < |ks|
    ensures KeptOk(ks[n])
  {
    hide OpLeaves;
    if n > 0 {
      SerialKeepsIndexed(ks, ops, n - 1);
      assert OpLeaves(ks[n - 1], ops[n - 1], ks[n - 1 + 1]);
      OpKeepsOk(ks[n - 1], ops[n - 1], ks[n]);
    }
  }

  /** And every put that reports success leaves at most fifty unexpired blobs. */
  lemma SerialBound(ks: seq<Kept>, ops: seq<Op>, n: nat)
    requires IsSerial(ks, ops) && n < |ops| && ops[n].Put? && ops[n].lost.Never?
    ensures |LiveKeys(ks[n + 1].blobs, ks[n + 1].now)| <= |ks[n + 1].lru| <= MAX_ENTRIES
  {
    SerialKeepsIndexed(ks, ops, n);
    assert OpLeaves(ks[n], ops[n], ks[n + 1]);
    hide PutLeaves, LiveKeys;
    SuccessfulPutBounds(ks[n].blobs, ks[n].lru, ops[n].key, Blob(ops[n].body, ks[n].now), ks[n + 1].blobs, ks[n + 1].lru);
  }

  // ── Interleaved callers ───────────────────────────────────────────────────

  /** Where a task is between two awaits. */
  datatype Task =
    | Idle
    | Touching(key: Key)
    | Counting
    | Choosing(evict: nat)
    | Deleting(stale: set<Key>)
    | Unindexing(stale: set<Key>)

  type TaskId = nat

  /** `slipped` has the keys whose index entry was dropped by a put that began before they were stored. */
  datatype World = World(blobs: Blobs, lru: Index, tasks: map<TaskId, Task>, now: real, slipped: set<Key>)

  function TaskOf(w: World, t: TaskId): Task {
    if t in w.tasks then w.tasks[t] else Idle
  }

  datatype Step =
    | Look(t: TaskId, key: Key)
    | Touch(t: TaskId)
    | Store(t: TaskId, key: Key, body: Body)
    | Count(t: TaskId)
    | Choose(t: TaskId, stale: set<Key>)
    | Delete(t: TaskId)
    | Unindex(t: TaskId)
    | Lose(t: TaskId)
    | Tick(later: real)

  ghost predicate Enabled(w: World, s: Step) {
    match s
    case Look(t, _) => TaskOf(w, t).Idle?
    case Touch(t) => TaskOf(w, t).Touching?
    case Store(t, _, _) => TaskOf(w, t).Idle?
    case Count(t) => TaskOf(w, t).Counting?
    case Choose(t, stale) => TaskOf(w, t).Choosing? && IsLowest(stale, w.lru, TaskOf(w, t).evict)
    case Delete(t) => TaskOf(w, t).Deleting?
    case Unindex(t) => TaskOf(w, t).Unindexing?
    case Lose(t) => true
    case Tick(later) => w.now <= later
  }

  function SetTask(w: World, t: TaskId, task: Task): World {
    w.(tasks := w.tasks[t := task])
  }

  function Restored(blobs: Blobs, stale: set<Key>): set<Key> {
    set key | key in stale && key in blobs
  }

  ghost function Do(w: World, s: Step): World
    requires Enabled(w, s)
  {
    match s
    case Look(t, key) => SetTask(w, t, if Live(w.blobs, key, w.now) then Touching(key) else Idle)
    case Touch(t) =>
      var key := TaskOf(w, t).key;
      SetTask(w.(lru := w.lru[key := w.now], slipped := w.slipped - {key}), t, Idle)
    case Store(t, key, body) =>
      SetTask(w.(blobs := w.blobs[key := Blob(body, w.now)], lru := Trim(w.lru[key := w.now], w.now),
                 slipped := w.slipped - {key}), t, Counting)
    case Count(t) =>
      SetTask(w, t, if |w.lru| > MAX_ENTRIES then Choosing(|w.lru| - MAX_ENTRIES) else Idle)
    case Choose(t, stale) => SetTask(w, t, if stale == {} then Idle else Deleting(stale))
    case Delete(t) =>
      SetTask(w.(blobs := w.blobs - TaskOf(w, t).stale), t, Unindexing(TaskOf(w, t).stale))
    case Unindex(t) =>
      var stale := TaskOf(w, t).stale;
      SetTask(w.(lru := w.lru - stale, slipped := w.slipped + Restored(w.blobs, stale)), t, Idle)
    case Lose(t) => SetTask(w, t, Idle)
    case Tick(later) => w.(now := later)
  }

  ghost predicate Inv(w: World) {
    Indexed(w.blobs, w.lru, w.slipped, w.now) && Past(w.blobs, w.lru, w.now)
  }

  ghost predicate IsRun(ws: seq<World>, steps: seq<Step>) {
    && |ws| == |steps| + 1
    && ws[0] == World(map[], map[], map[], ws[0].now, {}) && ws[0].now >= 0.0
    && forall i :: 0 <= i < |steps| ==> StepAt(ws[i], steps[i], ws[i + 1])
  }

  ghost predicate StepAt(w: World, s: Step, w': World) {
    Enabled(w, s) && w' == Do(w, s)
  }

  /** A get whose steps nothing comes between does what Redis.Get does. */
  lemma GetAlone(w: World, t: TaskId, key: Key)
    requires TaskOf(w, t).Idle?
    ensures var w1 := Do(w, Look(t, key));
            if Live(w.blobs, key, w.now)
            then && Enabled(w1, Touch(t)) && TaskOf(Do(w1, Touch(t)), t).Idle?
                 && Do(w1, Touch(t)).blobs == w.blobs && Do(w1, Touch(t)).lru == LruAfterGet(w.blobs, w.lru, key, w.now, Never)
            else TaskOf(w1, t).Idle? && w1.blobs == w.blobs && w1.lru == LruAfterGet(w.blobs, w.lru, key, w.now, Never)
  {
    hide IsLowest;
  }

  /** The world of a put that has counted the index, nothing having come between. */
  ghost function Counted(w: World, t: TaskId, key: Key, body: Body): World
    requires TaskOf(w, t).Idle?
  {
    Do(Do(w, Store(t, key, body)), Count(t))
  }

  lemma ChooseNone(blobs: Blobs, lru: Index)
    ensures blobs - {} == blobs && lru - {} == lru && IsLowest({}, lru, 0)
  {
  }

  /** And a put does what Redis.Put does: with room for its key it stops there, */
  lemma PutAloneFits(w: World, t: TaskId, key: Key, body: Body)
    requires TaskOf(w, t).Idle? && |Counted(w, t, key, body).lru| <= 50
    ensures var w2 := Counted(w, t, key, body);
            TaskOf(w2, t).Idle? && PutLeaves(w.blobs, w.lru, key, Blob(body, w.now), Never, w2.blobs, w2.lru)
  {
    hide Trim, IsLowest;
    var w2 := Counted(w, t, key, body);
    ChooseNone(w2.blobs, w2.lru);
    assert PutChose(w.blobs, w.lru, key, Blob(body, w.now), Never, {}, w2.blobs, w2.lru);
  }

  /** and without, it drops the blobs and index entries of those it chooses. */
  lemma PutAloneEvicts(w: World, t: TaskId, key: Key, body: Body, stale: set<Key>)
    requires TaskOf(w, t).Idle? && |Counted(w, t, key, body).lru| > 50 && stale != {}
    requires Enabled(Counted(w, t, key, body), Choose(t, stale))
    ensures var w5 := Do(Do(Do(Counted(w, t, key, body), Choose(t, stale)), Delete(t)), Unindex(t));
            TaskOf(w5, t).Idle? && PutLeaves(w.blobs, w.lru, key, Blob(body, w.now), Never, w5.blobs, w5.lru)
  {
    hide Trim, IsLowest;
    var w2 := Counted(w, t, key, body);
    var w3 := Do(w2, Choose(t, stale));
    var w4 := Do(w3, Delete(t));
    var w5 := Do(w4, Unindex(t));
    assert w5.blobs == w2.blobs - stale && w5.lru == w2.lru - stale;
    assert PutChose(w.blobs, w.lru, key, Blob(body, w.now), Never, stale, w5.blobs, w5.lru);
  }

  lemma StoreKeepsInv(w: World, w': World, key: Key, blob: Blob)
    requires Inv(w) && blob.at == w.now == w'.now
    requires w'.blobs == w.blobs[key := blob] && w'.lru == Trim(w.lru[key := w.now], w.now)
    requires w'.slipped == w.slipped - {key}
    ensures Inv(w')
  {
  }

  lemma DoKeepsInv(w: World, s: Step)
    requires Inv(w) && Enabled(w, s)
    ensures Inv(Do(w, s))
  {
    hide IsLowest, Trim;
    if s.Store? { StoreKeepsInv(w, Do(w, s), s.key, Blob(s.body, w.now)); }
  }

  /**
   * However any number of gets and puts interleave, and wherever they are cut short, a live blob
   * is in the index unless it slipped.
   */
  lemma {:induction false} RunKeepsIndex(ws: seq<World>, steps: seq<Step>)
    requires IsRun(ws, steps)
    ensures Inv(ws[|steps|])
  {
    hide Enabled, Do, Inv;
    if steps == [] {
      InitInv(ws[0]);
    } else {
      var n := |steps| - 1;
      RunKeepsIndex(ws[..n + 1], steps[..n]);
      assert StepAt(ws[n], steps[n], ws[n + 1]);
      DoKeepsInv(ws[n], steps[n]);
    }
  }

  lemma InitInv(w: World)
    requires w == World(map[], map[], map[], w.now, {}) && w.now >= 0.0
    ensures Inv(w)
  {
  }

  /** Nobody stores a key between the deletion of its blob and that of its index entry. */
  ghost predicate NoStoreWhileDeleting(w: World, s: Step) {
    s.Store? ==> forall t :: t in w.tasks && w.tasks[t].Unindexing? ==> s.key !in w.tasks[t].stale
  }

  ghost predicate NoSlip(w: World) {
    && w.slipped == {}
    && forall t, key :: t in w.tasks && w.tasks[t].Unindexing? && key in w.tasks[t].stale ==> key !in w.blobs
  }

  lemma DoKeepsNoSlip(w: World, s: Step)
    requires NoSlip(w) && Enabled(w, s) && NoStoreWhileDeleting(w, s)
    ensures NoSlip(Do(w, s))
  {
    hide IsLowest, Trim;
    var w' := Do(w, s);
    forall t, key | t in w'.tasks && w'.tasks[t].Unindexing? && key in w'.tasks[t].stale ensures key !in w'.blobs {
    }
  }

  /** Unless a key is stored between its blob's deletion and its index entry's, nothing slips. */
  lemma {:induction false} NothingSlips(ws: seq<World>, steps: seq<Step>)
    requires IsRun(ws, steps)
    requires forall i :: 0 <= i < |steps| ==> NoStoreWhileDeleting(ws[i], steps[i])
    ensures NoSlip(ws[|steps|])
  {
    hide Enabled, Do, NoStoreWhileDeleting;
    if steps != [] {
      var n := |steps| - 1;
      NothingSlips(ws[..n + 1], steps[..n]);
      assert StepAt(ws[n], steps[n], ws[n + 1]);
      DoKeepsNoSlip(ws[n], steps[n]);
    }
  }

  /** And if one is, it slips: its live blob is served but counted by no later put. */
  lemma StoredMeanwhileSlips(w: World, t: TaskId, u: TaskId, key: Key, body: Body)
    requires TaskOf(w, t).Unindexing? && key in TaskOf(w, t).stale && TaskOf(w, u).Idle?
    ensures var stored := Do(w, Store(u, key, body));
            && Enabled(stored, Unindex(t))
            && var w' := Do(stored, Unindex(t));
               Live(w'.blobs, key, w'.now) && key !in w'.lru && key in w'.slipped
  {
  }

  // ── A run in which an entry slips ─────────────────────────────────────────

  function KeyOf(n: nat): Key {
    seq(n, i => 'a')
  }

  /** After n puts of different keys, one after the other at one instant. */
  function Filled(n: nat, body: Body): World {
    World(map k | k in Names(n) :: Blob(body, 0.0), map k | k in Names(n) :: 0.0,
          if n == 0 then map[] else map[0 := Idle], 0.0, {})
  }

  function Names(n: nat): set<Key> {
    if n == 0 then {} else Names(n - 1) + {KeyOf(n)}
  }

  lemma {:induction false} NamesAre(n: nat)
    ensures |Names(n)| == n && forall k :: k in Names(n) ==> |k| <= n
  {
    if n > 0 {
      NamesAre(n - 1);
      assert |KeyOf(n)| == n;
    }
  }

  ghost predicate Reaches(w: World) {
    exists ws, steps :: IsRun(ws, steps) && ws[|steps|] == w
  }

  lemma ReachesNext(w: World, s: Step)
    requires Reaches(w) && Enabled(w, s)
    ensures Reaches(Do(w, s))
  {
    hide Enabled, Do;
    var ws, steps :| IsRun(ws, steps) && ws[|steps|] == w;
    var ws', steps' := ws + [Do(w, s)], steps + [s];
    forall i | 0 <= i < |steps'| ensures StepAt(ws'[i], steps'[i], ws'[i + 1]) {
      if i < |steps| { assert StepAt(ws[i], steps[i], ws[i + 1]); }
    }
    assert IsRun(ws', steps') && ws'[|steps'|] == Do(w, s);
  }

  lemma FilledNext(n: nat, body: Body)
    ensures var w, w' := Filled(n, body), Filled(n + 1, body);
            && w'.blobs == w.blobs[KeyOf(n + 1) := Blob(body, 0.0)] && w'.lru == w.lru[KeyOf(n + 1) := 0.0]
            && w'.slipped == w.slipped == {} && w'.now == w.now == 0.0
            && w'.tasks == map[0 := Idle] && w.tasks.Keys <= {0}
  {
    hide KeyOf;
    assert Names(n + 1) == Names(n) + {KeyOf(n + 1)};
  }

  lemma FilledSize(n: nat, body: Body)
    ensures |Filled(n, body).lru| == n && TaskOf(Filled(n, body), 0) == Idle
    ensures Filled(n, body).lru.Keys == Names(n)
    ensures Trim(Filled(n, body).lru, 0.0) == Filled(n, body).lru
  {
    NamesAre(n);
    var lru := Filled(n, body).lru;
    assert |lru| == |lru.Keys| && lru.Keys == Names(n);
  }

  lemma StoreOne(n: nat, body: Body)
    ensures var w, store := Filled(n, body), Store(0, KeyOf(n + 1), body);
            && Enabled(w, store)
            && Do(w, store) == Filled(n + 1, body).(tasks := map[0 := Counting])
  {
    hide Names, KeyOf, Trim, Filled;
    FilledNext(n, body);
    FilledSize(n, body);
    FilledSize(n + 1, body);
    var w := Filled(n, body);
    assert w.tasks[0 := Counting] == map[0 := Counting];
    assert w.slipped - {KeyOf(n + 1)} == {};
  }

  /** The count after the n-th put, which is over the limit only after the fifty-first. */
  lemma CountOne(n: nat, body: Body)
    requires n > 0
    ensures var w := Filled(n, body).(tasks := map[0 := Counting]);
            && Enabled(w, Count(0))
            && Do(w, Count(0)) == w.(tasks := map[0 := if n > MAX_ENTRIES then Choosing(n - MAX_ENTRIES) else Idle])
  {
    FilledSize(n, body);
    hide Names;
    assert map[0 := Counting][0 := Idle] == map[0 := Idle];
  }

  lemma {:induction false} FillsUp(n: nat, body: Body)
    requires n <= MAX_ENTRIES
    ensures Reaches(Filled(n, body))
  {
    if n == 0 {
      var ws, steps: seq<Step> := [Filled(0, body)], [];
      assert IsRun(ws, steps) && ws[|steps|] == Filled(0, body);
    } else {
      FillsUp(n - 1, body);
      FillsOneMore(n - 1, body);
    }
  }

  lemma FillsOneMore(n: nat, body: Body)
    requires Reaches(Filled(n, body)) && n < MAX_ENTRIES
    ensures Reaches(Filled(n + 1, body))
  {
    hide Do, Enabled, KeyOf, Names, Reaches, Filled;
    StoreOne(n, body);
    CountOne(n + 1, body);
    FilledNext(n, body);
    var w := Filled(n + 1, body);
    var counting := w.(tasks := map[0 := Counting]);
    ReachesNext(Filled(n, body), Store(0, KeyOf(n + 1), body));
    ReachesNext(counting, Count(0));
    assert counting.(tasks := map[0 := Idle]) == w;
  }

  /** The fifty-first put chooses the first key, which a second caller stores before its index entry goes. */
  lemma SlipsInARun(body: Body) returns (w: World)
    ensures Reaches(w) && Live(w.blobs, KeyOf(1), w.now) && KeyOf(1) !in w.lru
  {
    FillsUp(MAX_ENTRIES, body);
    var n := MAX_ENTRIES + 1;
    StoreOne(MAX_ENTRIES, body);
    CountOne(n, body);
    FirstIsChosen(n, body);
    hide Do, Enabled, KeyOf, Names, Reaches, IsLowest;
    var counting, choosing := Filled(n, body).(tasks := map[0 := Counting]), Filled(n, body).(tasks := map[0 := Choosing(1)]);
    ReachesNext(Filled(MAX_ENTRIES, body), Store(0, KeyOf(n), body));
    ReachesNext(counting, Count(0));
    w := SlipsFrom(choosing, body);
  }

  lemma ChooseEffect(w: World, stale: set<Key>, n: nat)
    requires w.tasks == map[0 := Choosing(n)] && IsLowest(stale, w.lru, n) && stale != {}
    ensures Enabled(w, Choose(0, stale)) && Do(w, Choose(0, stale)) == w.(tasks := map[0 := Deleting(stale)])
  {
    hide IsLowest;
  }

  lemma DeleteEffect(w: World, stale: set<Key>)
    requires w.tasks == map[0 := Deleting(stale)]
    ensures Enabled(w, Delete(0)) && Do(w, Delete(0)).tasks == map[0 := Unindexing(stale)]
  {
    hide IsLowest, Trim, Restored;
    assert TaskOf(w, 0) == Deleting(stale);
    assert map[0 := Deleting(stale)][0 := Unindexing(stale)] == map[0 := Unindexing(stale)];
  }

  lemma DeletesFirst(choosing: World) returns (unindexing: World)
    requires Reaches(choosing)
    requires choosing.tasks == map[0 := Choosing(1)] && IsLowest({KeyOf(1)}, choosing.lru, 1)
    ensures Reaches(unindexing) && unindexing.tasks == map[0 := Unindexing({KeyOf(1)})]
  {
    hide Reaches, KeyOf, IsLowest, Do, Enabled;
    var deleting := choosing.(tasks := map[0 := Deleting({KeyOf(1)})]);
    ChooseEffect(choosing, {KeyOf(1)}, 1);
    ReachesNext(choosing, Choose(0, {KeyOf(1)}));
    DeleteEffect(deleting, {KeyOf(1)});
    ReachesNext(deleting, Delete(0));
    unindexing := Do(deleting, Delete(0));
  }

  lemma SlipsFrom(choosing: World, body: Body) returns (w: World)
    requires Reaches(choosing)
    requires choosing.tasks == map[0 := Choosing(1)] && IsLowest({KeyOf(1)}, choosing.lru, 1)
    ensures Reaches(w) && Live(w.blobs, KeyOf(1), w.now) && KeyOf(1) !in w.lru
  {
    hide Reaches, KeyOf, IsLowest;
    var unindexing := DeletesFirst(choosing);
    var stored := Do(unindexing, Store(1, KeyOf(1), body));
    ReachesNext(unindexing, Store(1, KeyOf(1), body));
    StoredMeanwhileSlips(unindexing, 0, 1, KeyOf(1), body);
    ReachesNext(stored, Unindex(0));
    w := Do(stored, Unindex(0));
  }

  lemma {:induction false} FirstName(n: nat)
    requires n > 0
    ensures KeyOf(1) in Names(n)
  {
    if n > 1 { FirstName(n - 1); }
  }

  lemma FirstIsChosen(n: nat, body: Body)
    requires n > MAX_ENTRIES
    ensures IsLowest({KeyOf(1)}, Filled(n, body).lru, 1)
  {
    FirstName(n);
    FilledSize(n, body);
  }
}
