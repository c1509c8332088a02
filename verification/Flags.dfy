/**
 * What flags a match (server/src/retention.py) and how flags are merged into a match's row
 * (server/src/db.py): classifying the same logs again, or more of them, changes nothing that
 * the full logs would not.
 */
module Flags {
  import opened Wrappers

  // A merged log entry, as far as the classifier looks at it.
  datatype Line = Line(msg: Option<string>, slot: Option<int>, frame: Option<real>)

  datatype Reason = Reason(signal: string, count: nat, slot: Option<int>, first: Option<real>)

  type Found = map<string, Reason>

  const ANY_TAGS: set<string> := {
    "REPLAY-NORUN", "RB-INVARIANT-VIOLATION", "RB-LIVE-MISMATCH", "STEP-THREW",
    "TICK-STUCK", "RB-INPUT-STALL-TIMEOUT", "PEER-PHANTOM", "LOCAL-FREEZE"
  }
  const OOR_STORM: nat := 20
  const STORM := "INPUT-OOR-STORM"

  // ── One message ───────────────────────────────────────────────────────────

  function FirstWord(s: string): string {
    if s == "" || s[0] == ' ' then "" else [s[0]] + FirstWord(s[1..])
  }

  function StripColons(s: string): string {
    if s != "" && s[|s| - 1] == ':' then StripColons(s[..|s| - 1]) else s
  }

  function Tag(msg: string): string {
    StripColons(FirstWord(if "[C] " <= msg then msg[4..] else msg))
  }

  predicate Contains(s: string, part: string) {
    exists i :: 0 <= i <= |s| && part <= s[i..]
  }

  datatype Class = Ignored | OutOfRange | Signal(name: string)

  function ClassOf(line: Line): Class {
    if line.msg.None? then Ignored
    else
      var tag := Tag(line.msg.value);
      if tag == "INPUT-OOR" then OutOfRange
      else if tag == "RB-CHECK" && Contains(line.msg.value, "MISMATCH") then Signal("RB-CHECK-MISMATCH")
      else if tag in ANY_TAGS || "FATAL" <= tag || "RB-INVARIANT-" <= tag then Signal(tag)
      else Ignored
  }

  /** The storm's name is never a tag of its own, so the two ways of counting cannot mix. */
  lemma StormIsNoTag(line: Line)
    ensures ClassOf(line) != Signal(STORM)
  {
    if line.msg.Some? {
      var tag := Tag(line.msg.value);
      if "FATAL" <= tag { assert tag[0] == 'F'; }
      if "RB-INVARIANT-" <= tag { assert tag[0] == 'R'; }
      assert STORM[0] == 'I';
      assert "RB-CHECK-MISMATCH"[0] == 'R';
    }
  }

  // ── What a signal's reason should be ──────────────────────────────────────

  datatype Selector = BySignal(name: string) | BySlots(slots: set<Option<int>>)

  predicate Selects(sel: Selector, line: Line) {
    match sel
    case BySignal(name) => ClassOf(line) == Signal(name)
    case BySlots(slots) => ClassOf(line).OutOfRange? && line.slot in slots
  }

  function Select(lines: seq<Line>, sel: Selector): seq<Line> {
    if lines == [] then []
    else
      var l := lines[|lines| - 1];
      Select(lines[..|lines| - 1], sel) + (if Selects(sel, l) then [l] else [])
  }

  function Earlier(a: Option<real>, b: Option<real>): Option<real> {
    if a.None? then b else if b.None? || a.value <= b.value then a else b
  }

  /** The earliest frame of the lines that have one. */
  function Earliest(lines: seq<Line>): Option<real> {
    if lines == [] then None else Earlier(Earliest(lines[..|lines| - 1]), lines[|lines| - 1].frame)
  }

  /** The slots with a storm: at least OOR_STORM out-of-range lines of their own. */
  function Storms(lines: seq<Line>): set<Option<int>> {
    set l | l in lines && |Select(lines, BySlots({l.slot}))| >= OOR_STORM :: l.slot
  }

  /** The lines that count towards a signal. */
  function Matching(lines: seq<Line>, signal: string): seq<Line> {
    Select(lines, if signal == STORM then BySlots(Storms(lines)) else BySignal(signal))
  }

  function ReasonOf(signal: string, lines: seq<Line>): Reason
    requires lines != []
  {
    Reason(signal, |lines|, lines[0].slot, Earliest(lines))
  }

  ghost predicate Classified(found: Found, lines: seq<Line>) {
    forall signal ::
      if Matching(lines, signal) == [] then signal !in found
      else signal in found && found[signal] == ReasonOf(signal, Matching(lines, signal))
  }

  // ── The classifier ────────────────────────────────────────────────────────

  /** The dict after `_count`. */
  function CountIn(found: Found, signal: string, line: Line): Found {
    if signal !in found then found[signal := Reason(signal, 1, line.slot, line.frame)]
    else
      var r := found[signal];
      found[signal := r.(count := r.count + 1,
                         first := if line.frame.Some? && (r.first.None? || line.frame.value < r.first.value)
                                  then line.frame else r.first)]
  }

  function CountAll(found: Found, signal: string, lines: seq<Line>): Found {
    if lines == [] then found else CountIn(CountAll(found, signal, lines[..|lines| - 1]), signal, lines[|lines| - 1])
  }

  lemma {:induction false} EarlierIsAssociative(a: Option<real>, b: Option<real>, c: Option<real>)
    ensures Earlier(Earlier(a, b), c) == Earlier(a, Earlier(b, c))
  {
  }

  lemma {:induction false} EarliestAppend(a: seq<Line>, b: seq<Line>)
    ensures Earliest(a + b) == Earlier(Earliest(a), Earliest(b))
  {
    if b == [] {
      assert a + b == a;
    } else {
      assert (a + b)[..|a + b| - 1] == a + b[..|b| - 1];
      EarliestAppend(a, b[..|b| - 1]);
    }
  }

  lemma {:induction false} SelectAppend(a: seq<Line>, b: seq<Line>, sel: Selector)
    ensures Select(a + b, sel) == Select(a, sel) + Select(b, sel)
  {
    if b == [] {
      assert a + b == a;
    } else {
      assert (a + b)[..|a + b| - 1] == a + b[..|b| - 1];
      SelectAppend(a, b[..|b| - 1], sel);
    }
  }

  lemma SelectSnoc(lines: seq<Line>, l: Line, sel: Selector)
    ensures Select(lines + [l], sel) == if Selects(sel, l) then Select(lines, sel) + [l] else Select(lines, sel)
  {
    assert (lines + [l])[..|lines|] == lines;
  }

  lemma EarliestSnoc(lines: seq<Line>, l: Line)
    ensures Earliest(lines + [l]) == Earlier(Earliest(lines), l.frame)
  {
    assert (lines + [l])[..|lines|] == lines;
  }

  /** Counting a list of lines into a dict that has their reason so far extends that reason. */
  lemma CountInIsReason(found: Found, signal: string, lines: seq<Line>, l: Line)
    requires if lines == [] then signal !in found else signal in found && found[signal] == ReasonOf(signal, lines)
    ensures CountIn(found, signal, l) == found[signal := ReasonOf(signal, lines + [l])]
  {
    EarliestSnoc(lines, l);
  }

  /** `oor` holds each slot's out-of-range lines, and `order` the slots by first appearance. */
  ghost predicate Grouped(oor: map<Option<int>, seq<Line>>, order: seq<Option<int>>, lines: seq<Line>) {
    && order == SlotOrder(lines)
    && (forall s :: s in oor <==> s in order)
    && (forall s :: s in oor ==> oor[s] == Select(lines, BySlots({s})))
  }

  function SlotOrder(lines: seq<Line>): seq<Option<int>> {
    if lines == [] then []
    else
      var front, l := SlotOrder(lines[..|lines| - 1]), lines[|lines| - 1];
      if ClassOf(l).OutOfRange? && l.slot !in front then front + [l.slot] else front
  }

  ghost predicate SignalsDone(found: Found, lines: seq<Line>) {
    forall signal ::
      var m := if signal == STORM then [] else Select(lines, BySignal(signal));
      if m == [] then signal !in found else signal in found && found[signal] == ReasonOf(signal, m)
  }

  lemma ScanStep(found: Found, found': Found, lines: seq<Line>, l: Line)
    requires SignalsDone(found, lines)
    requires found' == if ClassOf(l).Signal? then CountIn(found, ClassOf(l).name, l) else found
    ensures SignalsDone(found', lines + [l])
  {
    hide ClassOf;
    StormIsNoTag(l);
    forall signal
      ensures var m := if signal == STORM then [] else Select(lines + [l], BySignal(signal));
              if m == [] then signal !in found' else signal in found' && found'[signal] == ReasonOf(signal, m)
    {
      SelectSnoc(lines, l, BySignal(signal));
      if signal != STORM && ClassOf(l) == Signal(signal) {
        CountInIsReason(found, signal, Select(lines, BySignal(signal)), l);
      }
    }
  }

  lemma GroupStep(oor: map<Option<int>, seq<Line>>, order: seq<Option<int>>, lines: seq<Line>, l: Line)
    requires Grouped(oor, order, lines)
    ensures !ClassOf(l).OutOfRange? ==> Grouped(oor, order, lines + [l])
    ensures ClassOf(l).OutOfRange? && l.slot in oor ==> Grouped(oor[l.slot := oor[l.slot] + [l]], order, lines + [l])
    ensures ClassOf(l).OutOfRange? && l.slot !in oor ==> Grouped(oor[l.slot := [l]], order + [l.slot], lines + [l])
  {
    hide ClassOf;
    assert (lines + [l])[..|lines|] == lines && (lines + [l])[|lines|] == l;
    assert SlotOrder(lines + [l])
        == if ClassOf(l).OutOfRange? && l.slot !in SlotOrder(lines) then SlotOrder(lines) + [l.slot] else SlotOrder(lines);
    hide SlotOrder, Select;
    forall s
      ensures Select(lines + [l], BySlots({s}))
              == if Selects(BySlots({s}), l) then Select(lines, BySlots({s})) + [l] else Select(lines, BySlots({s}))
    {
      SelectSnoc(lines, l, BySlots({s}));
    }
    if l.slot !in oor {
      UnseenSlot(lines, l.slot);
    }
  }

  lemma {:induction false} UnseenSlot(lines: seq<Line>, s: Option<int>)
    requires s !in SlotOrder(lines)
    ensures Select(lines, BySlots({s})) == []
  {
    if lines != [] { UnseenSlot(lines[..|lines| - 1], s); }
  }

  lemma {:induction false} SeenSlot(lines: seq<Line>, s: Option<int>)
    ensures s in SlotOrder(lines) <==> Select(lines, BySlots({s})) != []
  {
    if lines != [] { SeenSlot(lines[..|lines| - 1], s); }
  }

  // One pass over the entries: signals are counted, out-of-range lines grouped by slot.
  method Scan(lines: seq<Line>) returns (found: Found, oor: map<Option<int>, seq<Line>>, order: seq<Option<int>>)
    ensures SignalsDone(found, lines)
    ensures Grouped(oor, order, lines)
  {
    found, oor, order := map[], map[], [];
    for i := 0 to |lines|
      invariant SignalsDone(found, lines[..i])
      invariant Grouped(oor, order, lines[..i])
    {
      hide SignalsDone, Grouped, ClassOf;
      assert lines[..i + 1] == lines[..i] + [lines[i]];
      var line := lines[i];
      var kind := ClassOf(line);
      GroupStep(oor, order, lines[..i], line);
      var before := found;
      if kind.OutOfRange? {
        if line.slot in oor {
          oor := oor[line.slot := oor[line.slot] + [line]];
        } else {
          oor, order := oor[line.slot := [line]], order + [line.slot];
        }
      } else if kind.Signal? {
        found := CountIn(found, kind.name, line);
      }
      ScanStep(before, found, lines[..i], line);
    }
    assert lines[..|lines|] == lines;
  }

  /** A part of the lines, one slot's group more: its size and earliest frame add up. */
  lemma {:induction false} AddSlot(lines: seq<Line>, slots: set<Option<int>>, s: Option<int>)
    requires s !in slots
    ensures |Select(lines, BySlots(slots + {s}))| == |Select(lines, BySlots(slots))| + |Select(lines, BySlots({s}))|
    ensures Earliest(Select(lines, BySlots(slots + {s})))
            == Earlier(Earliest(Select(lines, BySlots(slots))), Earliest(Select(lines, BySlots({s}))))
  {
    NothingSelected(BySlots(slots + {s}));
    NothingSelected(BySlots(slots));
    NothingSelected(BySlots({s}));
    hide Select, Earliest, ClassOf;
    if lines != [] {
      var front, l := lines[..|lines| - 1], lines[|lines| - 1];
      AddSlot(front, slots, s);
      assert lines == front + [l];
      SelectSnoc(front, l, BySlots(slots + {s}));
      SelectSnoc(front, l, BySlots(slots));
      SelectSnoc(front, l, BySlots({s}));
      EarliestSnoc(Select(front, BySlots(slots + {s})), l);
      EarliestSnoc(Select(front, BySlots(slots)), l);
      EarliestSnoc(Select(front, BySlots({s})), l);
    }
  }

  /** The first line of some slots comes from the first of those slots to appear. */
  lemma {:induction false} FirstSlot(lines: seq<Line>, slots: set<Option<int>>, n: nat)
    requires n < |SlotOrder(lines)| && SlotOrder(lines)[n] in slots
    requires forall i :: 0 <= i < n ==> SlotOrder(lines)[i] !in slots
    ensures Select(lines, BySlots(slots)) != [] && Select(lines, BySlots(slots))[0].slot == SlotOrder(lines)[n]
  {
    hide ClassOf;
    var front, l := lines[..|lines| - 1], lines[|lines| - 1];
    var order := SlotOrder(front);
    assert forall i :: 0 <= i < |order| ==> SlotOrder(lines)[i] == order[i];
    if n < |order| {
      FirstSlot(front, slots, n);
    } else {
      NoSlot(front, slots);
    }
  }

  lemma {:induction false} NoSlot(lines: seq<Line>, slots: set<Option<int>>)
    requires forall i :: 0 <= i < |SlotOrder(lines)| ==> SlotOrder(lines)[i] !in slots
    ensures Select(lines, BySlots(slots)) == []
  {
    hide ClassOf;
    if lines != [] {
      var front, l := lines[..|lines| - 1], lines[|lines| - 1];
      assert forall i :: 0 <= i < |SlotOrder(front)| ==> SlotOrder(lines)[i] == SlotOrder(front)[i];
      NoSlot(front, slots);
      if ClassOf(l).OutOfRange? {
        assert l.slot in SlotOrder(lines);
      }
    }
  }

  /** The storm's reason once the storm slots in `slots` are counted, beside the other signals. */
  ghost predicate StormDone(found: Found, lines: seq<Line>, slots: set<Option<int>>) {
    && (forall signal :: signal != STORM ==>
          var m := Select(lines, BySignal(signal));
          if m == [] then signal !in found else signal in found && found[signal] == ReasonOf(signal, m))
    && var m := Select(lines, BySlots(slots));
       if m == [] then STORM !in found else STORM in found && found[STORM] == ReasonOf(STORM, m)
  }

  function StormsAmong(order: seq<Option<int>>, lines: seq<Line>): set<Option<int>> {
    set s | s in order && |Select(lines, BySlots({s}))| >= OOR_STORM
  }

  lemma {:induction false} CountAllIs(found: Found, signal: string, group: seq<Line>)
    requires group != []
    ensures CountAll(found, signal, group)
            == found[signal := if signal in found
                               then found[signal].(count := found[signal].count + |group|,
                                                   first := Earlier(found[signal].first, Earliest(group)))
                               else ReasonOf(signal, group)]
  {
    var front := group[..|group| - 1];
    if front != [] {
      CountAllIs(found, signal, front);
      if signal in found {
        EarlierIsAssociative(found[signal].first, Earliest(front), group[|group| - 1].frame);
      }
    }
  }

  lemma {:induction false} OrderIsDistinct(lines: seq<Line>, i: nat, j: nat)
    requires i < j < |SlotOrder(lines)|
    ensures SlotOrder(lines)[i] != SlotOrder(lines)[j]
  {
    var front := lines[..|lines| - 1];
    if j < |SlotOrder(front)| { OrderIsDistinct(front, i, j); }
  }

  /** Adding a later slot's group does not change where the storm first came from. */
  lemma FirstSlotStays(lines: seq<Line>, slots: set<Option<int>>, k: nat)
    requires k < |SlotOrder(lines)| && slots == StormsAmong(SlotOrder(lines)[..k], lines) && slots != {}
    ensures Select(lines, BySlots(slots)) != [] && Select(lines, BySlots(slots + {SlotOrder(lines)[k]})) != []
    ensures Select(lines, BySlots(slots + {SlotOrder(lines)[k]}))[0].slot == Select(lines, BySlots(slots))[0].slot
  {
    hide ClassOf;
    var order := SlotOrder(lines);
    var s :| s in slots;
    var i :| 0 <= i < k && order[..k][i] == s;
    var n := FirstIn(order, slots, i);
    assert forall j :: 0 <= j < n ==> order[j] != order[k] by {
      forall j | 0 <= j < n ensures order[j] != order[k] { OrderIsDistinct(lines, j, k); }
    }
    FirstSlot(lines, slots, n);
    FirstSlot(lines, slots + {order[k]}, n);
  }

  ghost function FirstIn(order: seq<Option<int>>, slots: set<Option<int>>, i: nat): (n: nat)
    requires i < |order| && order[i] in slots
    ensures n <= i && order[n] in slots && forall j :: 0 <= j < n ==> order[j] !in slots
  {
    if j :| 0 <= j < i && order[j] in slots then FirstIn(order, slots, j) else i
  }

  lemma StormStep(found: Found, lines: seq<Line>, slots: set<Option<int>>, k: nat)
    requires k < |SlotOrder(lines)| && slots == StormsAmong(SlotOrder(lines)[..k], lines)
    requires StormDone(found, lines, slots)
    requires |Select(lines, BySlots({SlotOrder(lines)[k]}))| >= OOR_STORM
    ensures StormDone(CountAll(found, STORM, Select(lines, BySlots({SlotOrder(lines)[k]}))), lines, slots + {SlotOrder(lines)[k]})
  {
    hide ClassOf;
    var s := SlotOrder(lines)[k];
    assert s !in slots by {
      if s in slots {
        var i :| 0 <= i < k && SlotOrder(lines)[..k][i] == s;
        OrderIsDistinct(lines, i, k);
      }
    }
    CountAllIs(found, STORM, Select(lines, BySlots({s})));
    AddSlot(lines, slots, s);
    if slots == {} {
      NoSlot(lines, slots);
      assert slots + {s} == {s};
    } else {
      FirstSlotStays(lines, slots, k);
    }
  }

  lemma {:induction false} SelectedAreLines(lines: seq<Line>, sel: Selector, l: Line)
    ensures l in Select(lines, sel) <==> l in lines && Selects(sel, l)
  {
    hide ClassOf;
    if lines != [] {
      SelectedAreLines(lines[..|lines| - 1], sel, l);
      assert lines == lines[..|lines| - 1] + [lines[|lines| - 1]];
    }
  }

  lemma StormsIff(lines: seq<Line>, s: Option<int>)
    ensures s in Storms(lines) <==> |Select(lines, BySlots({s}))| >= OOR_STORM
  {
    hide ClassOf;
    if |Select(lines, BySlots({s}))| >= OOR_STORM {
      var l := Select(lines, BySlots({s}))[0];
      SelectedAreLines(lines, BySlots({s}), l);
      assert l in lines && l.slot == s;
    }
  }

  lemma AllStorms(lines: seq<Line>)
    ensures StormsAmong(SlotOrder(lines), lines) == Storms(lines)
  {
    hide ClassOf;
    forall s ensures s in StormsAmong(SlotOrder(lines), lines) <==> s in Storms(lines) {
      StormsIff(lines, s);
      SeenSlot(lines, s);
    }
  }

  lemma StormsAmongSnoc(order: seq<Option<int>>, k: nat, lines: seq<Line>)
    requires k < |order|
    ensures StormsAmong(order[..k + 1], lines)
            == if |Select(lines, BySlots({order[k]}))| >= OOR_STORM then StormsAmong(order[..k], lines) + {order[k]}
               else StormsAmong(order[..k], lines)
  {
    assert order[..k + 1] == order[..k] + [order[k]];
  }

  method CountSlots(found0: Found, oor: map<Option<int>, seq<Line>>, order: seq<Option<int>>, ghost lines: seq<Line>)
    returns (found: Found)
    requires SignalsDone(found0, lines) && Grouped(oor, order, lines)
    ensures Classified(found, lines)
  {
    found := found0;
    NoSlot(lines, {});
    ghost var slots := StormsAmong(order[..0], lines);
    assert slots == {};
    assert StormDone(found, lines, slots);
    AllStorms(lines);
    StormsAreClassified(lines);
    hide StormDone, Classified, SignalsDone, Select, Storms, StormsAmong;
    for k := 0 to |order|
      invariant slots == StormsAmong(order[..k], lines)
      invariant StormDone(found, lines, slots)
    {
      var slotEntries := oor[order[k]];
      StormsAmongSnoc(order, k, lines);
      if |slotEntries| >= OOR_STORM {
        StormStep(found, lines, slots, k);
        found := CountEntries(found, STORM, slotEntries);
      }
      slots := StormsAmong(order[..k + 1], lines);
    }
    assert order[..|order|] == order;
  }

  lemma StormsAreClassified(lines: seq<Line>)
    ensures forall found :: StormDone(found, lines, Storms(lines)) ==> Classified(found, lines)
  {
  }

  method CountEntries(found0: Found, signal: string, entries: seq<Line>) returns (found: Found)
    ensures found == CountAll(found0, signal, entries)
  {
    found := found0;
    for i := 0 to |entries|
      invariant found == CountAll(found0, signal, entries[..i])
    {
      assert entries[..i + 1][..i] == entries[..i];
      found := CountIn(found, signal, entries[i]);
    }
    assert entries[..|entries|] == entries;
  }

  function SignalsOf(reasons: seq<Reason>): set<string> {
    set r | r in reasons :: r.signal
  }

  /** `reasons` lists the values of `found`, each signal once. */
  ghost predicate Lists(reasons: seq<Reason>, found: Found) {
    && SignalsOf(reasons) == found.Keys
    && (forall r :: r in reasons ==> r.signal in found && found[r.signal] == r)
    && (forall i, j :: 0 <= i < j < |reasons| ==> reasons[i].signal != reasons[j].signal)
  }

  lemma ListsSnoc(reasons: seq<Reason>, done: Found, r: Reason)
    requires Lists(reasons, done) && r.signal !in done
    ensures Lists(reasons + [r], done[r.signal := r])
  {
    assert SignalsOf(reasons + [r]) == SignalsOf(reasons) + {r.signal};
    forall i, j | 0 <= i < j < |reasons + [r]| ensures (reasons + [r])[i].signal != (reasons + [r])[j].signal {
      assert reasons[i] in reasons;
    }
  }

  method Values(found: Found) returns (reasons: seq<Reason>)
    requires forall signal :: signal in found ==> found[signal].signal == signal
    ensures Lists(reasons, found)
  {
    reasons := [];
    var todo := found.Keys;
    ghost var done: Found := map[];
    assert Lists(reasons, done);
    hide Lists, SignalsOf;
    while todo != {}
      invariant todo <= found.Keys && done.Keys == found.Keys - todo
      invariant forall s :: s in done ==> done[s] == found[s]
      invariant Lists(reasons, done)
      decreases |todo|
    {
      var signal :| signal in todo;
      ListsSnoc(reasons, done, found[signal]);
      reasons := reasons + [found[signal]];
      todo, done := todo - {signal}, done[signal := found[signal]];
    }
    assert done == found;
  }

  /** classify_entries: a reason for each signal the entries show, with its count, first slot and earliest frame. */
  method ClassifyEntries(lines: seq<Line>) returns (reasons: seq<Reason>)
    ensures exists found :: Classified(found, lines) && Lists(reasons, found)
  {
    var signals, oor, order := Scan(lines);
    var all := CountSlots(signals, oor, order, lines);
    forall signal | signal in all ensures all[signal].signal == signal {
      assert Matching(lines, signal) != [];
    }
    reasons := Values(all);
  }

  // ── Merging ───────────────────────────────────────────────────────────────

  // What the promise is about: how often, and how early. The slot is the first one seen.
  datatype Mark = Mark(count: nat, first: Option<real>)

  type Marks = map<string, Mark>

  function MarkOf(r: Reason): Mark {
    Mark(r.count, r.first)
  }

  function View(found: Found): Marks {
    map signal | signal in found :: MarkOf(found[signal])
  }

  function JoinMark(a: Mark, b: Mark): Mark {
    Mark(if a.count >= b.count then a.count else b.count, Earlier(a.first, b.first))
  }

  function Join(a: Marks, b: Marks): Marks {
    map signal | signal in a.Keys + b.Keys ::
      if signal !in b then a[signal] else if signal !in a then b[signal] else JoinMark(a[signal], b[signal])
  }

  /** The dict after one reason of the merge loop. */
  function MergeOne(bySignal: Found, reason: Reason): Found {
    if reason.signal !in bySignal then bySignal[reason.signal := reason]
    else
      var was := bySignal[reason.signal];
      bySignal[reason.signal := was.(
        count := if was.count >= reason.count then was.count else reason.count,
        first := if reason.first.Some? && (was.first.None? || reason.first.value < was.first.value)
                 then reason.first else was.first)]
  }

  function MergeAll(bySignal: Found, reasons: seq<Reason>): Found {
    if reasons == [] then bySignal else MergeOne(MergeAll(bySignal, reasons[..|reasons| - 1]), reasons[|reasons| - 1])
  }

  method MergeReasons(stored: Found, reasons: seq<Reason>) returns (bySignal: Found)
    ensures bySignal == MergeAll(stored, reasons)
  {
    bySignal := stored;
    for i := 0 to |reasons|
      invariant bySignal == MergeAll(stored, reasons[..i])
    {
      assert reasons[..i + 1][..i] == reasons[..i];
      bySignal := MergeOne(bySignal, reasons[i]);
    }
    assert reasons[..|reasons|] == reasons;
  }

  lemma MergeOneIsJoin(m: Found, r: Reason)
    ensures View(MergeOne(m, r)) == Join(View(m), map[r.signal := MarkOf(r)])
  {
    var one := map[r.signal := MarkOf(r)];
    assert View(MergeOne(m, r)).Keys == Join(View(m), one).Keys;
    forall signal | signal in Join(View(m), one) ensures View(MergeOne(m, r))[signal] == Join(View(m), one)[signal] {}
  }

  lemma JoinDisjoint(s: Marks, a: Marks, signal: string, mark: Mark)
    requires signal !in a
    ensures Join(Join(s, a), map[signal := mark]) == Join(s, a[signal := mark])
  {
    assert Join(Join(s, a), map[signal := mark]).Keys == Join(s, a[signal := mark]).Keys;
  }

  lemma ViewOfRest(found: Found, r: Reason)
    requires r.signal in found && found[r.signal] == r
    ensures r.signal !in View(found - {r.signal})
    ensures View(found - {r.signal})[r.signal := MarkOf(r)] == View(found)
  {
  }

  lemma ListsFront(reasons: seq<Reason>, found: Found)
    requires reasons != [] && Lists(reasons, found)
    ensures var front, r := reasons[..|reasons| - 1], reasons[|reasons| - 1];
            && r.signal in found && found[r.signal] == r
            && Lists(front, found - {r.signal})
  {
    var front, r := reasons[..|reasons| - 1], reasons[|reasons| - 1];
    assert reasons == front + [r];
    assert SignalsOf(reasons) == SignalsOf(front) + {r.signal};
    forall x | x in front ensures x.signal != r.signal {
      var i :| 0 <= i < |front| && front[i] == x;
      assert reasons[i] == x;
    }
  }

  /** Merging a list of distinct reasons is the pointwise join: larger counts, earlier frames. */
  lemma {:induction false} MergeIsJoin(stored: Found, reasons: seq<Reason>, found: Found)
    requires Lists(reasons, found)
    ensures View(MergeAll(stored, reasons)) == Join(View(stored), View(found))
  {
    if reasons == [] {
      assert SignalsOf(reasons) == {};
      assert View(stored) == Join(View(stored), View(found));
    } else {
      hide Lists, View, Join;
      var front, r := reasons[..|reasons| - 1], reasons[|reasons| - 1];
      ListsFront(reasons, found);
      ViewOfRest(found, r);
      MergeIsJoin(stored, front, found - {r.signal});
      MergeOneIsJoin(MergeAll(stored, front), r);
      JoinDisjoint(View(stored), View(found - {r.signal}), r.signal, MarkOf(r));
    }
  }

  // ── More logs never say less ──────────────────────────────────────────────

  ghost predicate MarkBelow(a: Mark, b: Mark) {
    JoinMark(a, b) == b
  }

  ghost predicate Below(a: Marks, b: Marks) {
    forall signal :: signal in a ==> signal in b && MarkBelow(a[signal], b[signal])
  }

  lemma WithoutCommon(m: multiset<Line>, n: multiset<Line>, x: Line)
    requires m + multiset{x} <= n + multiset{x}
    ensures m <= n
  {
    forall y ensures m[y] <= n[y] {
      assert (m + multiset{x})[y] <= (n + multiset{x})[y];
    }
  }

  lemma NothingSelected(sel: Selector)
    ensures Select([], sel) == [] && Earliest([]) == None
  {
  }

  /** What one line adds to a selection, wherever it stands. */
  function Own(sel: Selector, x: Line): seq<Line> {
    if Selects(sel, x) then [x] else []
  }

  lemma OneLineLess(b1: seq<Line>, x: Line, b2: seq<Line>, sel: Selector)
    ensures |Select(b1 + [x] + b2, sel)| == |Own(sel, x)| + |Select(b1 + b2, sel)|
    ensures Earliest(Select(b1 + [x] + b2, sel)) == Earlier(Earliest(Own(sel, x)), Earliest(Select(b1 + b2, sel)))
  {
    NothingSelected(sel);
    SelectSnoc([], x, sel);
    assert [] + [x] == [x];
    hide Select, Earliest, ClassOf;
    SelectAppend(b1, [x], sel);
    SelectAppend(b1 + [x], b2, sel);
    SelectAppend(b1, b2, sel);
    EarliestThree(Select(b1, sel), Own(sel, x), Select(b2, sel));
  }

  lemma LessLines(a: seq<Line>, b: seq<Line>) returns (b1: seq<Line>, b2: seq<Line>)
    requires a != [] && multiset(a) <= multiset(b)
    ensures b == b1 + [a[|a| - 1]] + b2
    ensures multiset(a[..|a| - 1]) <= multiset(b1 + b2)
  {
    var front, x := a[..|a| - 1], a[|a| - 1];
    assert a == front + [x];
    assert x in multiset(a);
    var i :| 0 <= i < |b| && b[i] == x;
    b1, b2 := b[..i], b[i + 1..];
    assert b == b1 + [x] + b2;
    assert multiset(a) == multiset(front) + multiset{x};
    assert multiset(b) == multiset(b1 + b2) + multiset{x};
    WithoutCommon(multiset(front), multiset(b1 + b2), x);
  }

  lemma {:induction false} MoreLinesSelectMore(a: seq<Line>, b: seq<Line>, sel: Selector)
    requires multiset(a) <= multiset(b)
    ensures |Select(a, sel)| <= |Select(b, sel)|
    ensures Earlier(Earliest(Select(a, sel)), Earliest(Select(b, sel))) == Earliest(Select(b, sel))
  {
    NothingSelected(sel);
    hide Select, Earliest, ClassOf;
    if a != [] {
      var front, x := a[..|a| - 1], a[|a| - 1];
      var b1, b2 := LessLines(a, b);
      MoreLinesSelectMore(front, b1 + b2, sel);
      assert a == front + [x] + [];
      assert front + [] == front;
      OneLineLess(front, x, [], sel);
      OneLineLess(b1, x, b2, sel);
    }
  }

  lemma EarliestThree(a: seq<Line>, b: seq<Line>, c: seq<Line>)
    ensures Earliest(a + b + c) == Earlier(Earliest(b), Earliest(a + c))
  {
    hide Earliest;
    EarliestAppend(a + b, c);
    EarliestAppend(a, b);
    EarliestAppend(a, c);
  }

  lemma {:induction false} MoreSlotsSelectMore(lines: seq<Line>, s: set<Option<int>>, t: set<Option<int>>)
    requires s <= t
    ensures |Select(lines, BySlots(s))| <= |Select(lines, BySlots(t))|
    ensures Earlier(Earliest(Select(lines, BySlots(s))), Earliest(Select(lines, BySlots(t)))) == Earliest(Select(lines, BySlots(t)))
  {
    NothingSelected(BySlots(s));
    NothingSelected(BySlots(t));
    hide Select, Earliest, ClassOf;
    if lines != [] {
      var front, l := lines[..|lines| - 1], lines[|lines| - 1];
      MoreSlotsSelectMore(front, s, t);
      assert lines == front + [l];
      SelectSnoc(front, l, BySlots(s));
      SelectSnoc(front, l, BySlots(t));
      EarliestSnoc(Select(front, BySlots(s)), l);
      EarliestSnoc(Select(front, BySlots(t)), l);
    }
  }

  lemma MoreLinesMatchMore(a: seq<Line>, b: seq<Line>, signal: string)
    requires multiset(a) <= multiset(b)
    ensures |Matching(a, signal)| <= |Matching(b, signal)|
    ensures Earlier(Earliest(Matching(a, signal)), Earliest(Matching(b, signal))) == Earliest(Matching(b, signal))
  {
    if signal != STORM {
      MoreLinesSelectMore(a, b, BySignal(signal));
    } else {
      forall s | s in Storms(a) ensures s in Storms(b) {
        StormsIff(a, s);
        StormsIff(b, s);
        MoreLinesSelectMore(a, b, BySlots({s}));
      }
      MoreSlotsSelectMore(a, Storms(a), Storms(b));
      MoreLinesSelectMore(a, b, BySlots(Storms(b)));
    }
  }

  lemma MoreLinesMarkMore(a: seq<Line>, fa: Found, b: seq<Line>, fb: Found)
    requires multiset(a) <= multiset(b) && Classified(fa, a) && Classified(fb, b)
    ensures Below(View(fa), View(fb))
  {
    forall signal | signal in View(fa) ensures signal in View(fb) && MarkBelow(View(fa)[signal], View(fb)[signal]) {
      assert Matching(a, signal) != [];
      MoreLinesMatchMore(a, b, signal);
      assert fb[signal] == ReasonOf(signal, Matching(b, signal));
    }
  }

  /**
   * Counts (the per-slot storm threshold included) and earliest frames depend only on which
   * entries there are, not on their order.
   */
  lemma OrderDoesNotMatter(a: seq<Line>, fa: Found, b: seq<Line>, fb: Found)
    requires multiset(a) == multiset(b) && Classified(fa, a) && Classified(fb, b)
    ensures View(fa) == View(fb)
  {
    MoreLinesMarkMore(a, fa, b, fb);
    MoreLinesMarkMore(b, fb, a, fa);
    assert View(fa).Keys == View(fb).Keys;
    forall signal | signal in View(fa) ensures View(fa)[signal] == View(fb)[signal] {
      assert MarkBelow(View(fa)[signal], View(fb)[signal]) && MarkBelow(View(fb)[signal], View(fa)[signal]);
    }
  }

  lemma JoinAbsorbs(s: Marks, a: Marks, b: Marks)
    requires Below(a, b)
    ensures Join(Join(s, a), b) == Join(s, b)
    ensures Join(Join(s, b), a) == Join(s, b)
  {
    assert Join(Join(s, a), b).Keys == Join(s, b).Keys;
    assert Join(Join(s, b), a).Keys == Join(s, b).Keys;
    forall signal | signal in Join(s, b)
      ensures Join(Join(s, a), b)[signal] == Join(s, b)[signal] && Join(Join(s, b), a)[signal] == Join(s, b)[signal]
    {
      if signal in a {
        assert MarkBelow(a[signal], b[signal]);
      }
    }
  }

  lemma JoinWithNothing(a: Marks)
    ensures Join(View(map[]), a) == a
  {
    assert Join(View(map[]), a).Keys == a.Keys;
  }

  /**
   * Re-classification is harmless: whatever is stored already, merging the flags of part of
   * the logs before or after those of the full logs leaves the full logs' counts and earliest
   * frames, and merging the same flags twice changes nothing.
   */
  lemma ReclassifyingIsHarmless(stored: Found, part: seq<Line>, partFound: Found, partReasons: seq<Reason>,
                                full: seq<Line>, fullFound: Found, fullReasons: seq<Reason>)
    requires multiset(part) <= multiset(full)
    requires Classified(partFound, part) && Lists(partReasons, partFound)
    requires Classified(fullFound, full) && Lists(fullReasons, fullFound)
    ensures View(MergeAll(MergeAll(stored, partReasons), fullReasons)) == View(MergeAll(stored, fullReasons))
    ensures View(MergeAll(MergeAll(stored, fullReasons), partReasons)) == View(MergeAll(stored, fullReasons))
    ensures stored == map[] ==> View(MergeAll(MergeAll(stored, partReasons), fullReasons)) == View(fullFound)
  {
    JoinWithNothing(View(fullFound));
    hide MergeAll, View, Join, Lists, Classified, Below;
    MergeIsJoin(stored, partReasons, partFound);
    MergeIsJoin(stored, fullReasons, fullFound);
    MergeIsJoin(MergeAll(stored, partReasons), fullReasons, fullFound);
    MergeIsJoin(MergeAll(stored, fullReasons), partReasons, partFound);
    MoreLinesMarkMore(part, partFound, full, fullFound);
    JoinAbsorbs(View(stored), View(partFound), View(fullFound));
  }

  /** The same holds of the whole stored dict when the same reasons are merged again. */
  lemma MergeTwiceIsOnce(stored: Found, reasons: seq<Reason>, found: Found)
    requires Lists(reasons, found)
    ensures View(MergeAll(MergeAll(stored, reasons), reasons)) == View(MergeAll(stored, reasons))
  {
    MergeIsJoin(stored, reasons, found);
    MergeIsJoin(MergeAll(stored, reasons), reasons, found);
    assert Below(View(found), View(found)) by {
      forall signal | signal in View(found) ensures MarkBelow(View(found)[signal], View(found)[signal]) {}
    }
    JoinAbsorbs(View(stored), View(found), View(found));
  }
}
