/**
 * The save-state cache (server/src/state_cache.py): the in-memory OrderedDict against a
 * specification that speaks only of which keys were touched, and the Redis variant's blobs and
 * LRU index under lost connections and interleaved callers.
 */
module StateCache {
  import opened Basics
  import opened Wrappers

  const TTL: real := 3600.0
  const MAX_ENTRIES: nat := 50

  type Key = string
  newtype Byte = x: int | 0 <= x < 256
  type Body = seq<Byte>

  // ── In memory ─────────────────────────────────────────────────────────────

  datatype Entry = Entry(key: Key, body: Body)

  datatype Op = Get(key: Key) | Put(key: Key, body: Body)

  /** The position of a key in the dictionary's order, or its length. */
  function IndexOf(entries: seq<Entry>, key: Key): (i: nat)
    ensures i <= |entries|
    ensures i < |entries| ==> entries[i].key == key
    ensures forall j :: 0 <= j < i ==> entries[j].key != key
  {
    if entries == [] || entries[0].key == key then 0 else 1 + IndexOf(entries[1..], key)
  }

  function Without(entries: seq<Entry>, i: nat): seq<Entry>
    requires i < |entries|
  {
    entries[..i] + entries[i + 1..]
  }

  class LocalCache {
    var entries: seq<Entry>

    constructor ()
      ensures entries == []
    {
      entries := [];
    }

    method Get(key: Key) returns (body: Option<Body>)
      modifies this
      ensures (entries, body) == LocalStep(old(entries), Op.Get(key))
    {
      var i := IndexOf(entries, key);
      if i == |entries| {
        return None;
      }
      body := Some(entries[i].body);
      entries := Without(entries, i) + [entries[i]];
    }

    method Put(key: Key, body: Body) returns (ok: bool)
      modifies this
      ensures (entries, None) == LocalStep(old(entries), Op.Put(key, body)) && ok
    {
      var i := IndexOf(entries, key);
      if i < |entries| {
        entries := Without(entries, i) + [Entry(key, body)];
      } else {
        if |entries| >= MAX_ENTRIES {
          entries := entries[1..];
        }
        entries := entries + [Entry(key, body)];
      }
      ok := true;
    }
  }

  function LocalStep(entries: seq<Entry>, op: Op): (seq<Entry>, Option<Body>) {
    var i := IndexOf(entries, op.key);
    match op
    case Get(key) =>
      if i == |entries| then (entries, None)
      else (Without(entries, i) + [entries[i]], Some(entries[i].body))
    case Put(key, body) =>
      if i < |entries| then (Without(entries, i) + [Entry(key, body)], None)
      else ((if |entries| >= MAX_ENTRIES then entries[1..] else entries) + [Entry(key, body)], None)
  }

  /** The specification's state: every put, and every key touched, in order. */
  datatype History = History(stored: map<Key, Body>, touches: seq<Key>)

  /** The other keys touched since a key's last touch. */
  function Since(touches: seq<Key>, key: Key): set<Key> {
    if touches == [] || touches[|touches| - 1] == key then {}
    else Since(touches[..|touches| - 1], key) + {touches[|touches| - 1]}
  }

  predicate Kept(h: History, key: Key) {
    key in h.stored && key in h.touches && |Since(h.touches, key)| < MAX_ENTRIES
  }

  /** A hit or a put touches its key; a key is a hit until fifty others were touched since. */
  function SpecStep(h: History, op: Op): (History, Option<Body>) {
    match op
    case Get(key) =>
      if Kept(h, key) then (h.(touches := h.touches + [key]), Some(h.stored[key])) else (h, None)
    case Put(key, body) => (History(h.stored[key := body], h.touches + [key]), None)
  }

  function Keys(entries: seq<Entry>): set<Key> {
    if entries == [] then {} else Keys(entries[..|entries| - 1]) + {entries[|entries| - 1].key}
  }

  lemma {:induction false} KeysConcat(a: seq<Entry>, b: seq<Entry>)
    ensures Keys(a + b) == Keys(a) + Keys(b)
  {
    if b == [] {
      assert a + b == a;
    } else {
      KeysConcat(a, b[..|b| - 1]);
      assert (a + b)[..|a + b| - 1] == a + b[..|b| - 1];
    }
  }

  lemma KeysOne(e: Entry)
    ensures Keys([e]) == {e.key}
  {
    assert Keys([e][..0]) == {};
  }

  /** The keys of a dictionary with position d singled out. */
  lemma KeysAround(entries: seq<Entry>, d: nat)
    requires d < |entries|
    ensures Keys(entries) == Keys(Without(entries, d)) + {entries[d].key}
  {
    hide Keys;
    KeysConcat(entries[..d], entries[d + 1..]);
    KeysConcat(entries[..d], [entries[d]]);
    KeysOne(entries[d]);
    KeysConcat(entries[..d] + [entries[d]], entries[d + 1..]);
    assert entries == entries[..d] + [entries[d]] + entries[d + 1..];
  }

  lemma {:induction false} HasKey(entries: seq<Entry>, key: Key)
    ensures key in Keys(entries) <==> IndexOf(entries, key) < |entries|
    ensures key in Keys(entries) <==> exists i :: 0 <= i < |entries| && entries[i].key == key
  {
    var i := IndexOf(entries, key);
    if i < |entries| {
      KeysAround(entries, i);
    } else if entries != [] {
      HasKey(entries[..|entries| - 1], key);
      var front := entries[..|entries| - 1];
      assert forall j :: 0 <= j < |front| ==> front[j].key == entries[j].key;
      assert entries[|entries| - 1].key != key;
    }
  }

  ghost predicate Distinct(entries: seq<Entry>) {
    forall i, j :: 0 <= i < j < |entries| ==> entries[i].key != entries[j].key
  }

  lemma {:induction false} KeysOfDistinct(entries: seq<Entry>)
    requires Distinct(entries)
    ensures |Keys(entries)| == |entries|
  {
    if entries != [] {
      var n := |entries| - 1;
      KeysOfDistinct(entries[..n]);
      HasKey(entries[..n], entries[n].key);
    }
  }

  /** An entry holds what was stored, and the entries behind it are the keys touched since. */
  ghost predicate EntryAt(entries: seq<Entry>, h: History, i: nat)
    requires i < |entries|
  {
    var e := entries[i];
    && e.key in h.stored && e.body == h.stored[e.key] && e.key in h.touches
    && Since(h.touches, e.key) == Keys(entries[i + 1..])
  }

  ghost predicate Forgotten(h: History, key: Key) {
    key in h.touches && |Since(h.touches, key)| >= MAX_ENTRIES
  }

  ghost predicate Represents(entries: seq<Entry>, h: History) {
    && Distinct(entries) && |entries| <= MAX_ENTRIES
    && (forall i :: 0 <= i < |entries| ==> EntryAt(entries, h, i))
    && (forall key :: key in h.stored && key !in Keys(entries) ==> Forgotten(h, key))
  }

  lemma KeptIffPresent(entries: seq<Entry>, h: History, key: Key)
    requires Represents(entries, h)
    ensures var i := IndexOf(entries, key);
            && (i < |entries| <==> Kept(h, key)) && (i < |entries| <==> key in Keys(entries))
            && (i < |entries| ==> key in h.stored && h.stored[key] == entries[i].body)
  {
    hide Since, Keys;
    var i := IndexOf(entries, key);
    HasKey(entries, key);
    if i < |entries| {
      assert EntryAt(entries, h, i);
      KeysOfDistinct(entries[i + 1..]);
    } else {
      assert key in h.stored ==> Forgotten(h, key);
    }
  }

  lemma SinceSnoc(touches: seq<Key>, last: Key, key: Key)
    ensures Since(touches + [last], key) == if last == key then {} else Since(touches, key) + {last}
  {
    assert (touches + [last])[..|touches|] == touches;
  }

  function Touch(h: History, e: Entry): History {
    History(h.stored[e.key := e.body], h.touches + [e.key])
  }

  /** An entry that keeps its place among the others, seen after the touch. */
  lemma EntryStays(entries: seq<Entry>, rest: seq<Entry>, h: History, e: Entry, from: nat, j: nat)
    requires from < |entries| && EntryAt(entries, h, from) && j < |rest| && rest[j] == entries[from]
    requires rest[j].key != e.key
    requires Keys(rest[j + 1..]) + {e.key} == Keys(entries[from + 1..]) + {e.key}
    ensures EntryAt(rest + [e], Touch(h, e), j)
  {
    hide Since, Keys;
    SinceSnoc(h.touches, e.key, rest[j].key);
    assert (rest + [e])[j + 1..] == rest[j + 1..] + [e];
    KeysConcat(rest[j + 1..], [e]);
    KeysOne(e);
  }

  lemma EntryLast(rest: seq<Entry>, h: History, e: Entry)
    ensures EntryAt(rest + [e], Touch(h, e), |rest|)
  {
    SinceSnoc(h.touches, e.key, e.key);
    assert (rest + [e])[|rest| + 1..] == [];
  }

  lemma StillForgotten(h: History, e: Entry, key: Key)
    requires Forgotten(h, key) && key != e.key
    ensures Forgotten(Touch(h, e), key)
  {
    hide Since;
    SinceSnoc(h.touches, e.key, key);
    SubsetSize(Since(h.touches, key), Since(h.touches, key) + {e.key});
  }

  /** A new key, with room for it. */
  lemma Added(entries: seq<Entry>, h: History, e: Entry)
    requires Represents(entries, h) && e.key !in Keys(entries) && |entries| < MAX_ENTRIES
    ensures Represents(entries + [e], Touch(h, e))
  {
    hide Since, Keys, EntryAt, Forgotten;
    forall j | 0 <= j < |entries| ensures EntryAt(entries + [e], Touch(h, e), j) && entries[j].key != e.key {
      HasKey(entries, e.key);
      EntryStays(entries, entries, h, e, j, j);
    }
    EntryLast(entries, h, e);
    KeysConcat(entries, [e]);
    KeysOne(e);
    forall key | key in Touch(h, e).stored && key !in Keys(entries + [e]) ensures Forgotten(Touch(h, e), key) {
      StillForgotten(h, e, key);
    }
  }

  lemma KeysBehind(entries: seq<Entry>, d: nat, j: nat)
    requires j < d < |entries|
    ensures Keys(Without(entries, d)[j + 1..]) + {entries[d].key} == Keys(entries[j + 1..])
  {
    KeysAround(entries[j + 1..], d - j - 1);
    assert Without(entries[j + 1..], d - j - 1) == Without(entries, d)[j + 1..];
  }

  /** What may leave its place when e is touched: its own entry, or the first of a full dictionary. */
  ghost predicate Leaves(entries: seq<Entry>, e: Entry, d: nat) {
    && d < |entries|
    && (entries[d].key == e.key || (d == 0 && |entries| == MAX_ENTRIES && e.key !in Keys(entries)))
  }

  lemma RestEntry(entries: seq<Entry>, h: History, e: Entry, d: nat, j: nat)
    requires Represents(entries, h) && Leaves(entries, e, d) && j < |Without(entries, d)|
    ensures EntryAt(Without(entries, d) + [e], Touch(h, e), j) && Without(entries, d)[j].key != e.key
  {
    hide Since, Keys, EntryAt, Forgotten;
    var rest := Without(entries, d);
    var from := if j < d then j else j + 1;
    assert rest[j] == entries[from] && EntryAt(entries, h, from);
    assert rest[j].key != e.key by { HasKey(entries, e.key); }
    if j < d {
      KeysBehind(entries, d, j);
      assert Keys(rest[j + 1..]) + {e.key} == Keys(entries[from + 1..]) + {e.key};
    } else {
      assert rest[j + 1..] == entries[from + 1..];
    }
    EntryStays(entries, rest, h, e, from, j);
  }

  lemma RestForgotten(entries: seq<Entry>, h: History, e: Entry, d: nat, key: Key)
    requires Represents(entries, h) && Leaves(entries, e, d)
    requires key in Touch(h, e).stored && key !in Keys(Without(entries, d) + [e])
    ensures Forgotten(Touch(h, e), key)
  {
    hide Since, Keys, EntryAt, Forgotten;
    KeysConcat(Without(entries, d), [e]);
    KeysOne(e);
    KeysAround(entries, d);
    if key == entries[d].key {
      DrivenOut(entries, h, e);
    } else {
      StillForgotten(h, e, key);
    }
  }

  /** The touched key moves to the end, or a new one drives out the first of a full dictionary. */
  lemma Moved(entries: seq<Entry>, h: History, e: Entry, d: nat)
    requires Represents(entries, h) && Leaves(entries, e, d)
    ensures Represents(Without(entries, d) + [e], Touch(h, e))
  {
    hide Since, Keys, EntryAt, Forgotten, Touch;
    var rest := Without(entries, d);
    forall j | 0 <= j < |rest| ensures EntryAt(rest + [e], Touch(h, e), j) && rest[j].key != e.key {
      RestEntry(entries, h, e, d, j);
    }
    EntryLast(rest, h, e);
    forall key | key in Touch(h, e).stored && key !in Keys(rest + [e]) ensures Forgotten(Touch(h, e), key) {
      RestForgotten(entries, h, e, d, key);
    }
  }

  /** The key driven out has just seen the fiftieth other key. */
  lemma DrivenOut(entries: seq<Entry>, h: History, e: Entry)
    requires Represents(entries, h) && |entries| == MAX_ENTRIES && e.key !in Keys(entries)
    ensures Forgotten(Touch(h, e), entries[0].key)
  {
    hide Since, Keys;
    assert EntryAt(entries, h, 0);
    HasKey(entries, e.key);
    HasKey(entries[1..], e.key);
    KeysOfDistinct(entries[1..]);
    SinceSnoc(h.touches, e.key, entries[0].key);
  }

  lemma StepRefines(entries: seq<Entry>, h: History, op: Op)
    requires Represents(entries, h)
    ensures LocalStep(entries, op).1 == SpecStep(h, op).1
    ensures Represents(LocalStep(entries, op).0, SpecStep(h, op).0)
  {
    hide Since, Keys, EntryAt, Forgotten, Kept;
    var i := IndexOf(entries, op.key);
    KeptIffPresent(entries, h, op.key);
    match op {
      case Get(key) =>
        if i < |entries| {
          assert h.stored[key := entries[i].body] == h.stored;
          Moved(entries, h, entries[i], i);
        }
      case Put(key, body) =>
        if i < |entries| {
          Moved(entries, h, Entry(key, body), i);
        } else if |entries| >= MAX_ENTRIES {
          assert Without(entries, 0) == entries[1..];
          Moved(entries, h, Entry(key, body), 0);
        } else {
          Added(entries, h, Entry(key, body));
        }
    }
  }

  function LocalRun(ops: seq<Op>): (seq<Entry>, seq<Option<Body>>) {
    if ops == [] then ([], [])
    else
      var (entries, results) := LocalRun(ops[..|ops| - 1]);
      var (entries', result) := LocalStep(entries, ops[|ops| - 1]);
      (entries', results + [result])
  }

  function SpecRun(ops: seq<Op>): (History, seq<Option<Body>>) {
    if ops == [] then (History(map[], []), [])
    else
      var (h, results) := SpecRun(ops[..|ops| - 1]);
      var (h', result) := SpecStep(h, ops[|ops| - 1]);
      (h', results + [result])
  }

  /**
   * Over every run of gets and puts the dictionary answers as the specification does: a key is
   * served, with what was last put, until fifty other keys have been touched since its last
   * touch, and not afterwards. It never holds more than fifty.
   */
  lemma {:induction false} LocalIsLru(ops: seq<Op>)
    ensures LocalRun(ops).1 == SpecRun(ops).1
    ensures |LocalRun(ops).0| <= MAX_ENTRIES && Represents(LocalRun(ops).0, SpecRun(ops).0)
  {
    hide LocalStep, SpecStep;
    if ops == [] {
      assert Represents([], History(map[], []));
    } else {
      LocalIsLru(ops[..|ops| - 1]);
      StepRefines(LocalRun(ops[..|ops| - 1]).0, SpecRun(ops[..|ops| - 1]).0, ops[|ops| - 1]);
    }
  }
}
