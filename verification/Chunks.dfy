/**
 * How one flush's entries become chunks (server/src/db.py): dedupe by `seq`, greedy
 * splitting by JSON size, and the byte cap that drops the oldest chunks.
 */
module Chunks {
  import opened Wrappers

  const MAX_VALID_SEQ: int := 0x20_0000_0000_0000
  const CHUNK_MAX: nat := 512 * 1024

  // What a client put under "seq": a real integer, or anything else (missing, bool, float...).
  datatype SeqField = IntSeq(value: int) | NoSeq

  // A decoded entry. `bytes` is the length of its JSON, `body` the rest of its content.
  datatype Entry = Entry(seqNo: SeqField, body: nat, bytes: nat)

  // An element of the client's list: a dict, or something that is skipped.
  datatype Item = Dict(entry: Entry) | NotDict

  // One session_log_chunks row. `origin` is the epoch of the flush that inserted it: not a
  // column, but it lets a history say whose entries a chunk holds.
  datatype Chunk = Chunk(origin: string, firstSeq: int, lastSeq: int, entries: seq<Entry>, size: nat)

  function ValidSeq(f: SeqField): Option<nat> {
    if f.IntSeq? && 0 <= f.value < MAX_VALID_SEQ then Some(f.value) else None
  }

  // ── Dedupe ────────────────────────────────────────────────────────────────

  predicate Past(e: Entry, last: int) {
    var s := ValidSeq(e.seqNo);
    s.None? || s.value > last
  }

  /** The entries kept by a dedupe against `last`, in order. */
  function Fresh(items: seq<Item>, last: int): seq<Entry> {
    if items == [] then []
    else
      var i := items[|items| - 1];
      Fresh(items[..|items| - 1], last) + (if i.Dict? && Past(i.entry, last) then [i.entry] else [])
  }

  /** The high-water mark after a dedupe against `last`. */
  function MaxSeq(items: seq<Item>, last: int): int {
    if items == [] then last
    else
      var m := MaxSeq(items[..|items| - 1], last);
      var i := items[|items| - 1];
      if i.Dict? && ValidSeq(i.entry.seqNo).Some? && ValidSeq(i.entry.seqNo).value > m
      then ValidSeq(i.entry.seqNo).value
      else m
  }

  /** MaxSeq is the least bound on `last` and every seq of the flush in [0, 2^53). */
  lemma {:induction false} MaxSeqIsMax(items: seq<Item>, last: int)
    ensures MaxSeq(items, last) >= last
    ensures forall i :: 0 <= i < |items| && items[i].Dict? && items[i].entry.seqNo.IntSeq?
                        && 0 <= items[i].entry.seqNo.value < 9007199254740992
              ==> items[i].entry.seqNo.value <= MaxSeq(items, last)
    ensures MaxSeq(items, last) == last
            || (0 <= MaxSeq(items, last) < 9007199254740992
                && exists i :: 0 <= i < |items| && items[i].Dict? && items[i].entry.seqNo == IntSeq(MaxSeq(items, last)))
  {
    if items != [] {
      var front := items[..|items| - 1];
      MaxSeqIsMax(front, last);
      if MaxSeq(items, last) != last && MaxSeq(items, last) == MaxSeq(front, last) {
        var i :| 0 <= i < |front| && front[i].Dict? && front[i].entry.seqNo == IntSeq(MaxSeq(front, last));
        assert items[i] == front[i];
      }
    }
  }

  /** Kept is every dict but those with a seq in [0, 2^53) that is not past `last`. */
  lemma {:induction false} FreshMembers(items: seq<Item>, last: int, e: Entry)
    ensures e in Fresh(items, last)
            <==> Dict(e) in items && !(e.seqNo.IntSeq? && 0 <= e.seqNo.value < 9007199254740992 && e.seqNo.value <= last)
  {
    if items != [] {
      FreshMembers(items[..|items| - 1], last, e);
      assert items == items[..|items| - 1] + [items[|items| - 1]];
    }
  }

  lemma CountSnoc<T>(s: seq<T>, x: T, y: T)
    ensures multiset(s + [x])[y] == multiset(s)[y] + (if x == y then 1 else 0)
  {
  }

  lemma FreshSnoc(items: seq<Item>, i: Item, last: int)
    ensures Fresh(items + [i], last) == if i.Dict? && Past(i.entry, last) then Fresh(items, last) + [i.entry] else Fresh(items, last)
  {
    assert (items + [i])[..|items|] == items;
  }

  lemma NothingFresh(last: int)
    ensures Fresh([], last) == []
  {
  }

  /** And each as often as it was sent. */
  lemma {:induction false} FreshCounts(items: seq<Item>, last: int, e: Entry)
    ensures multiset(Fresh(items, last))[e]
            == if e.seqNo.IntSeq? && 0 <= e.seqNo.value < 9007199254740992 && e.seqNo.value <= last then 0
               else multiset(items)[Dict(e)]
  {
    hide Fresh;
    if items == [] {
      NothingFresh(last);
    } else {
      var front, i := items[..|items| - 1], items[|items| - 1];
      FreshCounts(front, last, e);
      FreshSnoc(front, i, last);
      var stale := e.seqNo.IntSeq? && 0 <= e.seqNo.value < 9007199254740992 && e.seqNo.value <= last;
      var keep := i.Dict? && Past(i.entry, last);
      assert i == Dict(e) ==> keep == !stale;
      hide *;
      CountStep(Fresh(front, last), front, i, e, keep, stale);
      assert front + [i] == items;
    }
  }

  lemma CountStep(kept: seq<Entry>, items: seq<Item>, i: Item, e: Entry, keep: bool, stale: bool)
    requires multiset(kept)[e] == if stale then 0 else multiset(items)[Dict(e)]
    requires (keep ==> i.Dict?) && (i == Dict(e) ==> keep == !stale)
    ensures multiset(if keep then kept + [i.entry] else kept)[e] == if stale then 0 else multiset(items + [i])[Dict(e)]
  {
    CountSnoc(items, i, Dict(e));
    if keep { CountSnoc(kept, i.entry, e); }
  }

  /** `at` are the places in `items`, in order, of the entries kept. */
  ghost predicate Places(at: seq<nat>, kept: seq<Entry>, items: seq<Item>) {
    && |at| == |kept|
    && (forall k :: 0 <= k < |at| ==> at[k] < |items| && items[at[k]] == Dict(kept[k]))
    && (forall j, k :: 0 <= j < k < |at| ==> at[j] < at[k])
  }

  lemma PlacesSnoc(at: seq<nat>, kept: seq<Entry>, items: seq<Item>, i: Item)
    requires Places(at, kept, items)
    ensures Places(at, kept, items + [i])
    ensures i.Dict? ==> Places(at + [|items|], kept + [i.entry], items + [i])
  {
    assert forall k :: 0 <= k < |at| ==> (items + [i])[at[k]] == items[at[k]];
  }

  /** What is kept stays in the order it was sent. */
  lemma {:induction false} FreshInOrder(items: seq<Item>, last: int) returns (at: seq<nat>)
    ensures Places(at, Fresh(items, last), items)
  {
    at := [];
    if items != [] {
      var front, i := items[..|items| - 1], items[|items| - 1];
      at := FreshInOrder(front, last);
      assert items == front + [i];
      FreshSnoc(front, i, last);
      hide Fresh, Places;
      PlacesSnoc(at, Fresh(front, last), front, i);
      if i.Dict? && Past(i.entry, last) { at := at + [|front|]; }
    }
  }

  method EntriesPast(items: seq<Item>, lastSeq: int) returns (newEntries: seq<Entry>, maxSeq: int)
    ensures newEntries == Fresh(items, lastSeq)
    ensures maxSeq == MaxSeq(items, lastSeq)
  {
    newEntries, maxSeq := [], lastSeq;
    for i := 0 to |items|
      invariant newEntries == Fresh(items[..i], lastSeq)
      invariant maxSeq == MaxSeq(items[..i], lastSeq) >= lastSeq
    {
      assert items[..i + 1][..i] == items[..i];
      if items[i].NotDict? {
        continue;
      }
      var s := ValidSeq(items[i].entry.seqNo);
      if s.Some? {
        if s.value <= lastSeq {
          continue;
        }
        maxSeq := if s.value > maxSeq then s.value else maxSeq;
      }
      newEntries := newEntries + [items[i].entry];
    }
    assert items[..|items|] == items;
  }

  // ── Splitting into groups ─────────────────────────────────────────────────

  /** The size the splitter accounts for a group: "[]" plus each entry's JSON and ", ". */
  function Accounted(g: seq<Entry>): nat {
    if g == [] then 2 else Accounted(g[..|g| - 1]) + g[|g| - 1].bytes + 2
  }

  /** The length of the group's JSON array: no ", " after the last entry. */
  function JsonSize(g: seq<Entry>): nat {
    if g == [] then 2
    else if |g| == 1 then g[0].bytes + 2
    else JsonSize(g[..|g| - 1]) + 2 + g[|g| - 1].bytes
  }

  lemma {:induction false} JsonSizeIsAccounted(g: seq<Entry>)
    requires g != []
    ensures JsonSize(g) == Accounted(g) - 2
  {
    if |g| > 1 {
      JsonSizeIsAccounted(g[..|g| - 1]);
    } else {
      assert g[..0] == [];
    }
  }

  function Concat(groups: seq<seq<Entry>>): seq<Entry> {
    if groups == [] then [] else Concat(groups[..|groups| - 1]) + groups[|groups| - 1]
  }

  /** Groups in order, none empty, each a single entry or within `limit` as accounted. */
  ghost predicate IsSplit(groups: seq<seq<Entry>>, entries: seq<Entry>, limit: nat) {
    && Concat(groups) == entries
    && forall i :: 0 <= i < |groups| ==> GroupOk(groups[i], limit)
  }

  /** No split of the entries uses fewer groups. */
  ghost predicate IsFewest(groups: seq<seq<Entry>>, entries: seq<Entry>, limit: nat) {
    forall other :: IsSplit(other, entries, limit) ==> |groups| <= |other|
  }

  predicate GroupOk(g: seq<Entry>, limit: nat) {
    g != [] && (|g| == 1 || Accounted(g) <= limit)
  }

  // The splitter's state after a prefix: the closed groups and the open one.
  function SplitState(entries: seq<Entry>, limit: nat): (r: (seq<seq<Entry>>, seq<Entry>)) {
    if entries == [] then ([], [])
    else
      var (groups, current) := SplitState(entries[..|entries| - 1], limit);
      var e := entries[|entries| - 1];
      if current != [] && Accounted(current) + e.bytes + 2 > limit then (groups + [current], [e])
      else (groups, current + [e])
  }

  function Split(entries: seq<Entry>, limit: nat): seq<seq<Entry>> {
    var (groups, current) := SplitState(entries, limit);
    if current == [] then groups else groups + [current]
  }

  lemma {:induction false} SplitStep(entries: seq<Entry>, e: Entry, limit: nat)
    ensures var (groups, current) := SplitState(entries, limit);
            SplitState(entries + [e], limit)
            == if current != [] && Accounted(current) + e.bytes + 2 > limit then (groups + [current], [e])
               else (groups, current + [e])
  {
    assert (entries + [e])[..|entries|] == entries;
  }

  lemma ConcatSnoc(groups: seq<seq<Entry>>, g: seq<Entry>)
    ensures Concat(groups + [g]) == Concat(groups) + g
  {
    assert (groups + [g])[..|groups|] == groups;
  }

  lemma AccountedSnoc(g: seq<Entry>, e: Entry)
    ensures Accounted(g + [e]) == Accounted(g) + e.bytes + 2
  {
    assert (g + [e])[..|g|] == g;
  }

  /** The greedy split loses nothing, keeps the order, and every group is within the limit. */
  lemma {:induction false} SplitIsSplit(entries: seq<Entry>, limit: nat)
    ensures IsSplit(Split(entries, limit), entries, limit)
    ensures entries != [] ==> SplitState(entries, limit).1 != []
  {
    if entries != [] {
      var front, e := entries[..|entries| - 1], entries[|entries| - 1];
      SplitIsSplit(front, limit);
      assert entries == front + [e];
      SplitStep(front, e, limit);
      var (groups, current) := SplitState(front, limit);
      if current == [] {
        assert groups + [[e]] == [[e]];
        ConcatSnoc([], [e]);
      } else if Accounted(current) + e.bytes + 2 > limit {
        ConcatSnoc(groups + [current], [e]);
      } else {
        ExtendLast(groups, current, front, e, limit);
      }
    }
  }

  lemma ExtendLast(groups: seq<seq<Entry>>, current: seq<Entry>, front: seq<Entry>, e: Entry, limit: nat)
    requires IsSplit(groups + [current], front, limit) && Accounted(current) + e.bytes + 2 <= limit
    ensures IsSplit(groups + [current + [e]], front + [e], limit)
  {
    ConcatSnoc(groups, current);
    ConcatSnoc(groups, current + [e]);
    AccountedSnoc(current, e);
    var all := groups + [current];
    forall i | 0 <= i < |groups| ensures GroupOk(groups[i], limit) {
      assert all[i] == groups[i];
    }
  }

  lemma {:induction false} AccountedSuffix(a: seq<Entry>, b: seq<Entry>)
    ensures Accounted(b) <= Accounted(a + b)
  {
    if b == [] {
      AccountedAtLeast(a + b);
    } else {
      var front, e := b[..|b| - 1], b[|b| - 1];
      AccountedSuffix(a, front);
      assert a + b == (a + front) + [e];
      AccountedSnoc(a + front, e);
    }
  }

  lemma {:induction false} AccountedAtLeast(g: seq<Entry>)
    ensures Accounted(g) >= 2
  {
    if g != [] {
      AccountedAtLeast(g[..|g| - 1]);
    }
  }

  /**
   * The exchange argument: no split in the same order uses fewer groups than the greedy one,
   * and a split that uses as many leaves at least as much in its last group.
   */
  lemma {:induction false} SplitIsFewest(entries: seq<Entry>, limit: nat, other: seq<seq<Entry>>)
    requires IsSplit(other, entries, limit)
    ensures |Split(entries, limit)| <= |other|
    ensures |Split(entries, limit)| == |other| && entries != [] ==> |SplitState(entries, limit).1| <= |other[|other| - 1]|
  {
    if entries != [] {
      var n := |entries| - 1;
      var front, e := entries[..n], entries[n];
      assert entries == front + [e];
      SplitIsSplit(front, limit);
      SplitIsSplit(entries, limit);
      SplitOfSome(other, entries, limit);
      hide IsSplit, Accounted, Concat;
      var init, g := other[..|other| - 1], other[|other| - 1];
      assert other == init + [g];
      var g' := SplitOneShorter(init, g, front, e, limit);
      if g' == [] {
        SplitIsFewest(front, limit, init);
      } else {
        SplitIsFewest(front, limit, init + [g']);
        if |Split(front, limit)| == |init| + 1 {
          OpenGroupStaysOpen(init, g', front, e, limit);
        }
      }
    }
  }

  lemma SplitOfSome(groups: seq<seq<Entry>>, entries: seq<Entry>, limit: nat)
    requires IsSplit(groups, entries, limit) && entries != []
    ensures groups != []
  {
  }

  /** Taking the last entry off a split leaves a split. */
  lemma SplitOneShorter(init: seq<seq<Entry>>, g: seq<Entry>, front: seq<Entry>, e: Entry, limit: nat)
    returns (g': seq<Entry>)
    requires IsSplit(init + [g], front + [e], limit)
    ensures g == g' + [e]
    ensures g' == [] ==> IsSplit(init, front, limit)
    ensures g' != [] ==> IsSplit(init + [g'], front, limit) && Accounted(g') + e.bytes + 2 <= limit
  {
    var other := init + [g];
    assert other[|init|] == g && GroupOk(g, limit);
    ConcatSnoc(init, g);
    g' := g[..|g| - 1];
    assert g == g' + [g[|g| - 1]];
    assert front + [e] == (Concat(init) + g') + [g[|g| - 1]];
    assert front == (front + [e])[..|front|] == Concat(init) + g';
    assert e == (front + [e])[|front|] == g[|g| - 1];
    forall i | 0 <= i < |init| ensures GroupOk(init[i], limit) {
      assert init[i] == other[i];
    }
    ConcatSnoc(init, g');
    AccountedSnoc(g', e);
    AccountedAtLeast(g');
  }

  /** If some split ends in g' and could still take e, the greedy one, whose open group is no longer, can too. */
  lemma OpenGroupStaysOpen(init: seq<seq<Entry>>, g': seq<Entry>, front: seq<Entry>, e: Entry, limit: nat)
    requires IsSplit(init + [g'], front, limit)
    requires Accounted(g') + e.bytes + 2 <= limit
    requires front != [] && |SplitState(front, limit).1| <= |g'|
    ensures SplitState(front + [e], limit) == (SplitState(front, limit).0, SplitState(front, limit).1 + [e])
  {
    var groups, current := SplitState(front, limit).0, SplitState(front, limit).1;
    assert Accounted(current) <= Accounted(g') by {
      assert Concat(groups) + current == Concat(init) + g' by {
        SplitIsSplit(front, limit);
        ConcatSnoc(groups, current);
        ConcatSnoc(init, g');
      }
      LastIsSuffix(Concat(groups), current, Concat(init), g');
      AccountedSuffix(g'[..|g'| - |current|], current);
      assert g' == g'[..|g'| - |current|] + current;
    }
    SplitStep(front, e, limit);
  }

  lemma LastIsSuffix(a: seq<Entry>, x: seq<Entry>, b: seq<Entry>, y: seq<Entry>)
    requires a + x == b + y && |x| <= |y|
    ensures y[|y| - |x|..] == x
  {
    var all := a + x;
    assert x == all[|all| - |x|..];
    assert y == (b + y)[|b|..];
  }

  /** What a reader of the code would take the limit to mean: JSON text within `limit`. */
  ghost predicate IsJsonSplit(groups: seq<seq<Entry>>, entries: seq<Entry>, limit: nat) {
    && Concat(groups) == entries
    && forall i :: 0 <= i < |groups| ==> groups[i] != [] && (|groups[i]| == 1 || JsonSize(groups[i]) <= limit)
  }

  ghost predicate IsFewestJson(groups: seq<seq<Entry>>, entries: seq<Entry>, limit: nat) {
    forall other :: IsJsonSplit(other, entries, limit) ==> |groups| <= |other|
  }

  lemma JsonSplitIsSplit(groups: seq<seq<Entry>>, entries: seq<Entry>, limit: nat)
    ensures IsJsonSplit(groups, entries, limit) <==> IsSplit(groups, entries, limit + 2)
  {
    forall i | 0 <= i < |groups| && groups[i] != []
      ensures JsonSize(groups[i]) <= limit <==> Accounted(groups[i]) <= limit + 2
    {
      JsonSizeIsAccounted(groups[i]);
    }
    if IsJsonSplit(groups, entries, limit) {
      forall i | 0 <= i < |groups| ensures GroupOk(groups[i], limit + 2) {}
    }
    if IsSplit(groups, entries, limit + 2) {
      forall i | 0 <= i < |groups| ensures groups[i] != [] && (|groups[i]| == 1 || JsonSize(groups[i]) <= limit) {
        assert GroupOk(groups[i], limit + 2);
      }
    }
  }

  /**
   * The splitter counts a separator after the last entry too, so a chunk's JSON never comes
   * within two bytes of the limit. It uses the fewest groups of any split into JSON texts of
   * at most `limit` bytes exactly when allowing those two bytes saves it no group.
   */
  lemma FewestJsonGroupsIff(entries: seq<Entry>, limit: nat)
    ensures IsJsonSplit(Split(entries, limit), entries, limit)
    ensures IsFewestJson(Split(entries, limit), entries, limit)
            <==> |Split(entries, limit)| == |Split(entries, limit + 2)|
  {
    SplitIsSplit(entries, limit);
    SplitIsSplit(entries, limit + 2);
    var tight, loose := Split(entries, limit), Split(entries, limit + 2);
    assert IsSplit(tight, entries, limit + 2) by {
      forall i | 0 <= i < |tight| ensures GroupOk(tight[i], limit + 2) {
        assert GroupOk(tight[i], limit);
      }
    }
    JsonSplitIsSplit(tight, entries, limit);
    JsonSplitIsSplit(loose, entries, limit);
    SplitIsFewest(entries, limit + 2, tight);
    if |tight| == |loose| {
      forall other | IsJsonSplit(other, entries, limit) ensures |tight| <= |other| {
        JsonSplitIsSplit(other, entries, limit);
        SplitIsFewest(entries, limit + 2, other);
      }
    }
  }

  /** The i-th entry is put in a new group although its JSON would still fit the current one. */
  predicate ClosesEarly(entries: seq<Entry>, i: nat, limit: nat)
    requires i < |entries|
  {
    var current := SplitState(entries[..i], limit).1;
    current != [] && Accounted(current) + entries[i].bytes + 2 > limit && JsonSize(current + [entries[i]]) <= limit
  }

  lemma {:induction false} NeverEarlyIsLoose(entries: seq<Entry>, limit: nat)
    requires forall i :: 0 <= i < |entries| ==> !ClosesEarly(entries, i, limit)
    ensures SplitState(entries, limit) == SplitState(entries, limit + 2)
  {
    if entries != [] {
      var n := |entries| - 1;
      var front, e := entries[..n], entries[n];
      forall i | 0 <= i < n ensures !ClosesEarly(front, i, limit) {
        assert front[..i] == entries[..i] && !ClosesEarly(entries, i, limit);
      }
      NeverEarlyIsLoose(front, limit);
      assert front + [e] == entries && !ClosesEarly(entries, n, limit);
      SplitStep(front, e, limit);
      SplitStep(front, e, limit + 2);
      var current := SplitState(front, limit).1;
      AccountedSnoc(current, e);
      JsonSizeIsAccounted(current + [e]);
    }
  }

  /** If no group is closed at an entry whose JSON still fits, the split is a smallest one. */
  lemma NeverEarlyIsFewest(entries: seq<Entry>, limit: nat)
    requires forall i :: 0 <= i < |entries| ==> !ClosesEarly(entries, i, limit)
    ensures IsFewestJson(Split(entries, limit), entries, limit)
  {
    NeverEarlyIsLoose(entries, limit);
    FewestJsonGroupsIff(entries, limit);
  }

  lemma {:induction false} ConcatAppend(a: seq<seq<Entry>>, b: seq<seq<Entry>>)
    ensures Concat(a + b) == Concat(a) + Concat(b)
  {
    if b == [] {
      assert a + b == a;
    } else {
      ConcatAppend(a, b[..|b| - 1]);
      ConcatSnoc(a + b[..|b| - 1], b[|b| - 1]);
      ConcatSnoc(b[..|b| - 1], b[|b| - 1]);
      assert a + b[..|b| - 1] + [b[|b| - 1]] == a + b && b[..|b| - 1] + [b[|b| - 1]] == b;
    }
  }

  lemma MergedConcat(a: seq<seq<Entry>>, g: seq<Entry>, h: seq<Entry>, b: seq<seq<Entry>>)
    ensures Concat(a + [g, h] + b) == Concat(a + [g + h] + b)
  {
    hide Concat;
    ConcatTwo(g, h);
    ConcatAppend(a, [g + h]);
    ConcatAppend(a + [g + h], b);
    ConcatAppend(a, [g, h]);
    ConcatAppend(a + [g, h], b);
  }

  lemma ConcatTwo(g: seq<Entry>, h: seq<Entry>)
    ensures Concat([g, h]) == Concat([g + h]) == g + h
  {
    ConcatSnoc([], g);
    ConcatSnoc([g], h);
    ConcatSnoc([], g + h);
    assert [] + [g] == [g] && [g] + [h] == [g, h] && [] + [g + h] == [g + h];
  }

  lemma MergedFits(a: seq<seq<Entry>>, g: seq<Entry>, h: seq<Entry>, b: seq<seq<Entry>>, entries: seq<Entry>, limit: nat)
    requires IsJsonSplit(a + [g, h] + b, entries, limit) && JsonSize(g + h) <= limit
    ensures IsJsonSplit(a + [g + h] + b, entries, limit)
  {
    hide Concat, JsonSize;
    MergedConcat(a, g, h, b);
    var was, now := a + [g, h] + b, a + [g + h] + b;
    assert was[|a|] == g;
    forall j | 0 <= j < |now| ensures now[j] != [] && (|now[j]| == 1 || JsonSize(now[j]) <= limit) {
      if j < |a| { assert now[j] == was[j]; } else if j > |a| { assert now[j] == was[j + 1]; }
    }
  }

  /** If a group was closed although all of the next one's JSON still fits it, the split is not. */
  lemma EarlyCloseCosts(entries: seq<Entry>, limit: nat, i: nat) returns (other: seq<seq<Entry>>)
    requires i + 1 < |Split(entries, limit)|
    requires JsonSize(Split(entries, limit)[i] + Split(entries, limit)[i + 1]) <= limit
    ensures IsJsonSplit(other, entries, limit) && |other| < |Split(entries, limit)|
  {
    FewestJsonGroupsIff(entries, limit);
    hide Split, IsJsonSplit, JsonSize;
    var groups := Split(entries, limit);
    var a, g, h, b := groups[..i], groups[i], groups[i + 1], groups[i + 2..];
    assert groups == a + [g, h] + b;
    MergedFits(a, g, h, b, entries, limit);
    other := a + [g + h] + b;
  }

  /** From an open group on, the splitter having come to `end`: either it took all that follows, or it was closed. */
  ghost predicate TookOrClosed(start: (seq<seq<Entry>>, seq<Entry>), tail: seq<Entry>, end: (seq<seq<Entry>>, seq<Entry>), limit: nat) {
    && end.1 != [] && |start.0| <= |end.0|
    && (|start.0| == |end.0| ==> (tail == [] || Accounted(start.1 + tail) <= limit) && end == (start.0, start.1 + tail))
  }

  lemma TookOneMore(start: (seq<seq<Entry>>, seq<Entry>), tail: seq<Entry>, end: (seq<seq<Entry>>, seq<Entry>), e: Entry,
                    end': (seq<seq<Entry>>, seq<Entry>), limit: nat)
    requires TookOrClosed(start, tail, end, limit)
    requires end' == if Accounted(end.1) + e.bytes + 2 > limit then (end.0 + [end.1], [e]) else (end.0, end.1 + [e])
    ensures TookOrClosed(start, tail + [e], end', limit)
  {
    assert start.1 + (tail + [e]) == (start.1 + tail) + [e];
    AccountedSnoc(start.1 + tail, e);
    hide Accounted;
  }

  lemma {:induction false} TakesAllOrCloses(front: seq<Entry>, tail: seq<Entry>, limit: nat)
    requires SplitState(front, limit).1 != []
    ensures TookOrClosed(SplitState(front, limit), tail, SplitState(front + tail, limit), limit)
  {
    var start := SplitState(front, limit);
    if tail == [] {
      assert front + tail == front && start.1 + tail == start.1;
    } else {
      hide SplitState, Accounted;
      var n := |tail| - 1;
      TakesAllOrCloses(front, tail[..n], limit);
      var end := SplitState(front + tail[..n], limit);
      SplitStep(front + tail[..n], tail[n], limit);
      assert front + tail[..n] + [tail[n]] == front + tail;
      TookOneMore(start, tail[..n], end, tail[n], SplitState(front + tail, limit), limit);
      assert tail[..n] + [tail[n]] == tail;
    }
  }

  /**
   * Exactly, when at most the last group was opened early: the split is a smallest one if and
   * only if the last two groups do not fit one.
   */
  lemma LastEarlyIff(entries: seq<Entry>, limit: nat, front: seq<Entry>, tail: seq<Entry>)
    requires entries == front + tail && front != [] && tail != []
    requires SplitState(entries, limit) == (Split(front, limit), tail)
    requires forall i :: 0 <= i < |front| ==> !ClosesEarly(front, i, limit)
    ensures IsFewestJson(Split(entries, limit), entries, limit) <==> JsonSize(SplitState(front, limit).1 + tail) > limit
  {
    hide SplitState, Split, IsSplit, IsJsonSplit, IsFewestJson, JsonSize, Accounted, ClosesEarly;
    NeverEarlyIsLoose(front, limit);
    SplitIsSplit(front, limit);
    if JsonSize(SplitState(front, limit).1 + tail) > limit {
      LastStaysApart(entries, limit, front, tail);
    } else {
      LastMerges(entries, limit, front, tail);
    }
  }

  lemma LastStaysApart(entries: seq<Entry>, limit: nat, front: seq<Entry>, tail: seq<Entry>)
    requires entries == front + tail && front != [] && tail != []
    requires SplitState(front, limit) == SplitState(front, limit + 2) && SplitState(front, limit).1 != []
    requires SplitState(entries, limit) == (Split(front, limit), tail)
    requires JsonSize(SplitState(front, limit).1 + tail) > limit
    ensures IsFewestJson(Split(entries, limit), entries, limit)
  {
    TakesAllOrCloses(front, tail, limit + 2);
    JsonSizeIsAccounted(SplitState(front, limit).1 + tail);
    hide SplitState, JsonSize, Accounted, IsJsonSplit, IsFewestJson;
    FewestJsonGroupsIff(entries, limit);
    LooserIsNoMore(entries, limit);
  }

  lemma LooserIsNoMore(entries: seq<Entry>, limit: nat)
    ensures |Split(entries, limit + 2)| <= |Split(entries, limit)|
  {
    FewestJsonGroupsIff(entries, limit);
    JsonSplitIsSplit(Split(entries, limit), entries, limit);
    hide Split, IsSplit, IsJsonSplit;
    SplitIsFewest(entries, limit + 2, Split(entries, limit));
  }

  lemma LastMerges(entries: seq<Entry>, limit: nat, front: seq<Entry>, tail: seq<Entry>)
    requires tail != [] && SplitState(front, limit).1 != []
    requires SplitState(entries, limit) == (Split(front, limit), tail)
    requires JsonSize(SplitState(front, limit).1 + tail) <= limit
    ensures !IsFewestJson(Split(entries, limit), entries, limit)
  {
    hide SplitState, JsonSize, IsJsonSplit;
    var (groups, current) := SplitState(front, limit);
    var all := Split(entries, limit);
    assert all == groups + [current] + [tail];
    assert all[|groups|] == current && all[|groups| + 1] == tail;
    var other := EarlyCloseCosts(entries, limit, |groups|);
  }

  /** Two entries whose JSON array is exactly 512 KiB long, stored as two chunks instead of one. */
  lemma TwoBytesShort(a: nat, b: nat)
    requires a + b + 4 == 524288
    ensures var es := [Entry(IntSeq(0), 0, a), Entry(IntSeq(1), 0, b)];
            IsJsonSplit([es], es, 524288) && |Split(es, CHUNK_MAX)| == 2
  {
    var e0, e1 := Entry(IntSeq(0), 0, a), Entry(IntSeq(1), 0, b);
    var es := [e0, e1];
    assert [] + [e0] == [e0] && [e0] + [e1] == es;
    AccountedSnoc([], e0);
    AccountedSnoc([e0], e1);
    SplitStep([], e0, CHUNK_MAX);
    SplitStep([e0], e1, CHUNK_MAX);
    ConcatSnoc([], es);
    assert [] + [es] == [es];
    JsonSizeIsAccounted(es);
  }

  method SplitEntries(entries: seq<Entry>) returns (groups: seq<seq<Entry>>)
    ensures groups == Split(entries, CHUNK_MAX)
    ensures IsSplit(groups, entries, 524288)
    ensures IsFewest(groups, entries, 524288)
  {
    groups := [];
    var current: seq<Entry> := [];
    var currentBytes := 2;
    for i := 0 to |entries|
      invariant (groups, current) == SplitState(entries[..i], CHUNK_MAX)
      invariant currentBytes == Accounted(current)
    {
      assert entries[..i + 1] == entries[..i] + [entries[i]];
      SplitStep(entries[..i], entries[i], CHUNK_MAX);
      var entryBytes := entries[i].bytes + 2;
      if current != [] && currentBytes + entryBytes > CHUNK_MAX {
        groups := groups + [current];
        current, currentBytes := [], 2;
      }
      AccountedSnoc(current, entries[i]);
      current := current + [entries[i]];
      currentBytes := currentBytes + entryBytes;
    }
    assert entries[..|entries|] == entries;
    if current != [] {
      groups := groups + [current];
    }
    SplitIsSplit(entries, CHUNK_MAX);
    forall other | IsSplit(other, entries, CHUNK_MAX) ensures |groups| <= |other| {
      SplitIsFewest(entries, CHUNK_MAX, other);
    }
  }

  // ── Chunk rows ────────────────────────────────────────────────────────────

  /** The usable seqs of a group, in order. */
  function Seqs(g: seq<Entry>): seq<nat> {
    if g == [] then []
    else
      var s := ValidSeq(g[|g| - 1].seqNo);
      Seqs(g[..|g| - 1]) + (if s.Some? then [s.value] else [])
  }

  function MaxOf(s: seq<nat>, base: int): int {
    if s == [] then base
    else var m := MaxOf(s[..|s| - 1], base); if s[|s| - 1] > m then s[|s| - 1] else m
  }

  function MinOf(s: seq<nat>): int
    requires s != []
  {
    if |s| == 1 then s[0]
    else var m := MinOf(s[..|s| - 1]); if s[|s| - 1] < m then s[|s| - 1] else m
  }

  function HighAfter(groups: seq<seq<Entry>>, last: int): int {
    if groups == [] then last
    else MaxOf(Seqs(groups[|groups| - 1]), HighAfter(groups[..|groups| - 1], last))
  }

  /** The rows inserted for `groups`, with first_seq and last_seq as the source records them. */
  function Rows(origin: string, groups: seq<seq<Entry>>, last: int): seq<Chunk> {
    if groups == [] then []
    else
      var front, g := groups[..|groups| - 1], groups[|groups| - 1];
      var high := HighAfter(front, last);
      Rows(origin, front, last)
      + [Chunk(origin, if Seqs(g) == [] then high else MinOf(Seqs(g)), MaxOf(Seqs(g), high), g,
               JsonSize(g))]
  }

  lemma RowsSnoc(origin: string, groups: seq<seq<Entry>>, g: seq<Entry>, last: int)
    ensures var high := HighAfter(groups, last);
            && HighAfter(groups + [g], last) == MaxOf(Seqs(g), high)
            && Rows(origin, groups + [g], last)
               == Rows(origin, groups, last)
                  + [Chunk(origin, if Seqs(g) == [] then high else MinOf(Seqs(g)), MaxOf(Seqs(g), high), g, JsonSize(g))]
  {
    assert (groups + [g])[..|groups|] == groups;
  }

  function NewChunks(origin: string, kept: seq<Entry>, last: int): seq<Chunk> {
    Rows(origin, Split(kept, CHUNK_MAX), last)
  }

  function Total(chunks: seq<Chunk>): nat {
    if chunks == [] then 0 else chunks[0].size + Total(chunks[1..])
  }

  function AllEntries(chunks: seq<Chunk>): seq<Entry> {
    if chunks == [] then [] else AllEntries(chunks[..|chunks| - 1]) + chunks[|chunks| - 1].entries
  }

  lemma {:induction false} TotalAppend(a: seq<Chunk>, b: seq<Chunk>)
    ensures Total(a + b) == Total(a) + Total(b)
  {
    if a == [] {
      assert a + b == b;
    } else {
      assert (a + b)[1..] == a[1..] + b;
      TotalAppend(a[1..], b);
    }
  }

  lemma {:induction false} AllEntriesAppend(a: seq<Chunk>, b: seq<Chunk>)
    ensures AllEntries(a + b) == AllEntries(a) + AllEntries(b)
  {
    if b == [] {
      assert a + b == a;
    } else {
      var front := b[..|b| - 1];
      assert (a + b)[..|a + b| - 1] == a + front;
      AllEntriesAppend(a, front);
      assert AllEntries(a + b) == AllEntries(a + front) + b[|b| - 1].entries;
    }
  }

  /** The new rows hold exactly the kept entries, in order, all under the flush's epoch. */
  lemma {:induction false} RowsHold(origin: string, groups: seq<seq<Entry>>, last: int)
    ensures AllEntries(Rows(origin, groups, last)) == Concat(groups)
    ensures |Rows(origin, groups, last)| == |groups|
    ensures forall i :: 0 <= i < |groups| ==> Rows(origin, groups, last)[i].origin == origin
                                              && Rows(origin, groups, last)[i].entries == groups[i]
  {
    if groups != [] {
      var front := groups[..|groups| - 1];
      RowsHold(origin, front, last);
      var r := Rows(origin, groups, last);
      assert r[..|r| - 1] == Rows(origin, front, last);
    }
  }

  lemma NewChunksHold(origin: string, kept: seq<Entry>, last: int)
    ensures AllEntries(NewChunks(origin, kept, last)) == kept
    ensures forall c :: c in NewChunks(origin, kept, last) ==> c.origin == origin
    ensures kept == [] <==> NewChunks(origin, kept, last) == []
  {
    SplitIsSplit(kept, CHUNK_MAX);
    RowsHold(origin, Split(kept, CHUNK_MAX), last);
  }

  lemma {:induction false} MaxOfIsMax(s: seq<nat>, base: int)
    ensures base <= MaxOf(s, base)
    ensures forall i :: 0 <= i < |s| ==> s[i] <= MaxOf(s, base)
  {
    if s != [] { MaxOfIsMax(s[..|s| - 1], base); }
  }

  lemma {:induction false} MinOfIsMin(s: seq<nat>)
    requires s != []
    ensures forall i :: 0 <= i < |s| ==> MinOf(s) <= s[i]
  {
    if |s| > 1 { MinOfIsMin(s[..|s| - 1]); }
  }

  lemma {:induction false} SeqsAre(g: seq<Entry>, q: nat)
    ensures q in Seqs(g) <==> q < 9007199254740992 && exists i :: 0 <= i < |g| && g[i].seqNo == IntSeq(q)
  {
    if g != [] {
      var n := |g| - 1;
      SeqsAre(g[..n], q);
      assert g == g[..n] + [g[n]];
      assert (exists i :: 0 <= i < |g| && g[i].seqNo == IntSeq(q))
          <==> (exists i :: 0 <= i < n && g[..n][i].seqNo == IntSeq(q)) || g[n].seqNo == IntSeq(q);
    }
  }

  lemma {:induction false} MaxOfReached(s: seq<nat>, base: int)
    ensures MaxOf(s, base) == base || MaxOf(s, base) in s
  {
    if s != [] { MaxOfReached(s[..|s| - 1], base); }
  }

  lemma {:induction false} MinOfReached(s: seq<nat>)
    requires s != []
    ensures MinOf(s) in s
  {
    if |s| > 1 { MinOfReached(s[..|s| - 1]); }
  }

  /** A row's first_seq is its least usable seq, and last_seq the greatest or the mark before it. */
  ghost predicate RowFits(row: Chunk, before: int, g: seq<Entry>) {
    && before <= row.lastSeq
    && (forall q: nat :: q in Seqs(g) ==> row.firstSeq <= q <= row.lastSeq)
    && (row.lastSeq == before || exists q: nat :: q in Seqs(g) && q == row.lastSeq)
    && (if Seqs(g) == [] then row.firstSeq == before else exists q: nat :: q in Seqs(g) && q == row.firstSeq)
  }

  lemma {:induction false} RowIs(origin: string, groups: seq<seq<Entry>>, last: int, i: nat)
    requires i < |groups|
    ensures |Rows(origin, groups, last)| == |groups|
    ensures var g, high := groups[i], HighAfter(groups[..i], last);
            Rows(origin, groups, last)[i]
            == Chunk(origin, if Seqs(g) == [] then high else MinOf(Seqs(g)), HighAfter(groups[..i + 1], last), g, JsonSize(g))
  {
    RowsHold(origin, groups, last);
    var n := |groups| - 1;
    RowsHold(origin, groups[..n], last);
    if i < n {
      RowIs(origin, groups[..n], last, i);
      assert groups[..n][..i] == groups[..i] && groups[..n][..i + 1] == groups[..i + 1];
    } else {
      assert groups[..i + 1] == groups;
    }
  }

  /** Each row's bounds and size are those of its entries. */
  lemma RowBounds(origin: string, groups: seq<seq<Entry>>, last: int, i: nat)
    requires i < |groups|
    ensures |Rows(origin, groups, last)| == |groups| && Rows(origin, groups, last)[i].size == JsonSize(groups[i])
    ensures RowFits(Rows(origin, groups, last)[i], if i == 0 then last else Rows(origin, groups, last)[i - 1].lastSeq, groups[i])
  {
    RowIs(origin, groups, last, i);
    if i > 0 { RowIs(origin, groups, last, i - 1); }
    var g, high := groups[i], HighAfter(groups[..i], last);
    assert groups[..i + 1][..i] == groups[..i];
    hide Rows, JsonSize;
    MaxOfIsMax(Seqs(g), high);
    MaxOfReached(Seqs(g), high);
    if Seqs(g) != [] {
      MinOfIsMin(Seqs(g));
      MinOfReached(Seqs(g));
    }
  }

  // ── The byte cap ──────────────────────────────────────────────────────────

  /**
   * The DELETE's effect: a chunk stays when the sizes from it to the newest, added up from the
   * newest backwards, are within the cap.
   */
  function DropOldest(chunks: seq<Chunk>, cap: nat): seq<Chunk> {
    if chunks == [] then []
    else (if Total(chunks) <= cap then [chunks[0]] else []) + DropOldest(chunks[1..], cap)
  }

  /** `kept` is the longest suffix of `all` whose size fits the cap. */
  ghost predicate IsLongestFit(kept: seq<Chunk>, all: seq<Chunk>, cap: nat) {
    exists k :: IsLongestFitFrom(kept, all, cap, k)
  }

  ghost predicate IsLongestFitFrom(kept: seq<Chunk>, all: seq<Chunk>, cap: nat, k: int) {
    && 0 <= k <= |all|
    && kept == all[k..]
    && Total(kept) <= cap
    && forall j :: 0 <= j < k ==> Total(all[j..]) > cap
  }

  lemma {:induction false} DropOldestKeepsAll(chunks: seq<Chunk>, cap: nat)
    requires Total(chunks) <= cap
    ensures DropOldest(chunks, cap) == chunks
  {
    if chunks != [] {
      DropOldestKeepsAll(chunks[1..], cap);
    }
  }

  /** The row-by-row DELETE leaves the longest suffix that fits. */
  lemma {:induction false} DropOldestIsLongestFit(chunks: seq<Chunk>, cap: nat)
    ensures IsLongestFit(DropOldest(chunks, cap), chunks, cap)
  {
    if Total(chunks) <= cap {
      DropOldestKeepsAll(chunks, cap);
      WholeFits(chunks, cap);
    } else {
      var rest := chunks[1..];
      DropOldestIsLongestFit(rest, cap);
      var k :| IsLongestFitFrom(DropOldest(rest, cap), rest, cap, k);
      forall j | 0 <= j < k + 1 ensures Total(chunks[j..]) > cap {
        if j == 0 { assert chunks[0..] == chunks; } else { assert chunks[j..] == rest[j - 1..]; }
      }
      assert chunks[k + 1..] == rest[k..];
      assert DropOldest(chunks, cap) == DropOldest(rest, cap);
      assert IsLongestFitFrom(DropOldest(chunks, cap), chunks, cap, k + 1);
    }
  }

  /** Appending to the longest fitting suffix and fitting again is fitting the whole once. */
  lemma FitAgain(kept: seq<Chunk>, all: seq<Chunk>, more: seq<Chunk>, kept': seq<Chunk>, cap: nat)
    requires IsLongestFit(kept, all, cap)
    requires IsLongestFit(kept', kept + more, cap)
    ensures IsLongestFit(kept', all + more, cap)
  {
    var k :| IsLongestFitFrom(kept, all, cap, k);
    var m :| IsLongestFitFrom(kept', kept + more, cap, m);
    assert all + more == all[..k] + (kept + more);
    assert (all + more)[k + m..] == kept';
    forall j | 0 <= j < k + m ensures Total((all + more)[j..]) > cap {
      if j < k {
        assert (all + more)[j..] == all[j..] + more;
        TotalAppend(all[j..], more);
      } else {
        assert (all + more)[j..] == (kept + more)[j - k..];
      }
    }
    assert IsLongestFitFrom(kept', all + more, cap, k + m);
  }

  lemma WholeFits(chunks: seq<Chunk>, cap: nat)
    requires Total(chunks) <= cap
    ensures IsLongestFit(chunks, chunks, cap)
  {
    assert chunks[0..] == chunks;
    assert IsLongestFitFrom(chunks, chunks, cap, 0);
  }
}
