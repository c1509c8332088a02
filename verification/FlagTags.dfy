/**
 * Which messages flag a match, said without the classifier's own string functions, and from that
 * each reason it gives: how many lines show the signal, which came first, and the earliest frame.
 */
module FlagTags {
  import opened Wrappers
  import opened Flags

  /** A message as its optional relay prefix, its first word, the colons after that, and the rest. */
  ghost predicate Splits(msg: string, prefix: string, word: string, colons: string, rest: string) {
    && msg == prefix + word + colons + rest
    && (prefix == "[C] " || (prefix == "" && !("[C] " <= msg)))
    && (forall i :: 0 <= i < |word| ==> word[i] != ' ')
    && (word == "" || word[|word| - 1] != ':')
    && (forall i :: 0 <= i < |colons| ==> colons[i] == ':')
    && (rest == "" || rest[0] == ' ')
  }

  ghost predicate Says(line: Line, word: string) {
    line.msg.Some? && exists prefix, colons, rest :: Splits(line.msg.value, prefix, word, colons, rest)
  }

  ghost predicate Mentions(msg: string, part: string) {
    exists before, after :: msg == before + part + after
  }

  lemma {:induction false} FirstWordIs(word: string, rest: string)
    requires forall i :: 0 <= i < |word| ==> word[i] != ' '
    requires rest == "" || rest[0] == ' '
    ensures FirstWord(word + rest) == word
  {
    if word == "" {
      assert word + rest == rest;
    } else {
      assert (word + rest)[1..] == word[1..] + rest;
      FirstWordIs(word[1..], rest);
    }
  }

  lemma {:induction false} StripColonsIs(word: string, colons: string)
    requires word == "" || word[|word| - 1] != ':'
    requires forall i :: 0 <= i < |colons| ==> colons[i] == ':'
    ensures StripColons(word + colons) == word
  {
    if colons == "" {
      assert word + colons == word;
    } else {
      assert (word + colons)[..|word + colons| - 1] == word + colons[..|colons| - 1];
      StripColonsIs(word, colons[..|colons| - 1]);
    }
  }

  lemma TagIs(msg: string, prefix: string, word: string, colons: string, rest: string)
    requires Splits(msg, prefix, word, colons, rest)
    ensures Tag(msg) == word
  {
    assert prefix == "[C] " ==> msg[..4] == "[C] ";
    var body := word + colons + rest;
    assert body == (word + colons) + rest;
    assert msg == prefix + body;
    assert body == if "[C] " <= msg then msg[4..] else msg;
    FirstWordIs(word + colons, rest);
    StripColonsIs(word, colons);
  }

  lemma {:induction false} FirstWordRest(s: string) returns (rest: string)
    ensures s == FirstWord(s) + rest && (rest == "" || rest[0] == ' ')
    ensures forall i :: 0 <= i < |FirstWord(s)| ==> FirstWord(s)[i] != ' '
  {
    if s == "" || s[0] == ' ' {
      rest := s;
    } else {
      rest := FirstWordRest(s[1..]);
    }
  }

  lemma {:induction false} StripColonsRest(s: string) returns (colons: string)
    ensures s == StripColons(s) + colons && forall i :: 0 <= i < |colons| ==> colons[i] == ':'
    ensures StripColons(s) == "" || StripColons(s)[|StripColons(s)| - 1] != ':'
  {
    if s != "" && s[|s| - 1] == ':' {
      var front := StripColonsRest(s[..|s| - 1]);
      colons := front + ":";
      assert s == s[..|s| - 1] + ":";
    } else {
      colons := "";
    }
  }

  lemma BodySplits(body: string) returns (colons: string, rest: string)
    ensures var word := StripColons(FirstWord(body));
            && body == word + colons + rest
            && (forall i :: 0 <= i < |word| ==> word[i] != ' ')
            && (word == "" || word[|word| - 1] != ':')
    ensures forall i :: 0 <= i < |colons| ==> colons[i] == ':'
    ensures rest == "" || rest[0] == ' '
  {
    rest := FirstWordRest(body);
    var first := FirstWord(body);
    hide FirstWord;
    colons := StripColonsRest(first);
    var word := StripColons(first);
    hide StripColons;
    assert first == word + colons;
    forall i | 0 <= i < |word| ensures word[i] != ' ' {
      assert word[i] == first[i];
    }
  }

  lemma PrefixSplits(msg: string, prefix: string, word: string, colons: string, rest: string)
    requires msg == prefix + (word + colons + rest)
    requires prefix == "[C] " || prefix == ""
    requires prefix == "" ==> !("[C] " <= msg)
    requires forall i :: 0 <= i < |word| ==> word[i] != ' '
    requires word == "" || word[|word| - 1] != ':'
    requires forall i :: 0 <= i < |colons| ==> colons[i] == ':'
    requires rest == "" || rest[0] == ' '
    ensures Splits(msg, prefix, word, colons, rest)
  {
    assert prefix + (word + colons + rest) == prefix + word + colons + rest;
  }

  /** Every message splits. */
  lemma SplitsAt(msg: string) returns (prefix: string, colons: string, rest: string)
    ensures Splits(msg, prefix, Tag(msg), colons, rest)
  {
    var body := if "[C] " <= msg then msg[4..] else msg;
    colons, rest := BodySplits(body);
    var word := Tag(msg);
    assert word == StripColons(FirstWord(body));
    hide FirstWord, StripColons, Tag;
    prefix := if "[C] " <= msg then "[C] " else "";
    assert msg == prefix + body;
    hide Splits;
    PrefixSplits(msg, prefix, word, colons, rest);
  }

  /** Every message has exactly one first word. */
  lemma SaysItsTag(line: Line, word: string)
    ensures Says(line, word) <==> line.msg.Some? && word == Tag(line.msg.value)
  {
    if Says(line, word) {
      var prefix, colons, rest :| Splits(line.msg.value, prefix, word, colons, rest);
      TagIs(line.msg.value, prefix, word, colons, rest);
    }
    hide Tag, Splits;
    if line.msg.Some? && word == Tag(line.msg.value) {
      var prefix, colons, rest := SplitsAt(line.msg.value);
    }
  }

  lemma MentionsIs(msg: string, part: string)
    ensures Mentions(msg, part) <==> Contains(msg, part)
  {
    if Mentions(msg, part) {
      var before, after :| msg == before + part + after;
      Behind(before, part, after);
    }
    if Contains(msg, part) {
      var i :| 0 <= i <= |msg| && part <= msg[i..];
      var rest := msg[i..];
      assert rest == part + rest[|part|..];
      assert msg == msg[..i] + rest == msg[..i] + part + rest[|part|..];
    }
  }

  lemma Behind(before: string, part: string, after: string)
    ensures part <= (before + part + after)[|before|..]
  {
    assert (before + part + after)[|before|..] == part + after;
  }

  /**
   * What a line counts as: by its first word alone, but for RB-CHECK, and only eight words and two
   * prefixes are signals.
   */
  lemma ClassIs(line: Line, word: string)
    requires Says(line, word)
    ensures ClassOf(line) == OutOfRange <==> word == "INPUT-OOR"
    ensures word == "RB-CHECK" ==>
              ClassOf(line) == if Mentions(line.msg.value, "MISMATCH") then Signal("RB-CHECK-MISMATCH") else Ignored
    ensures word != "INPUT-OOR" && word != "RB-CHECK" ==>
              ClassOf(line)
              == if word in ["REPLAY-NORUN", "RB-INVARIANT-VIOLATION", "RB-LIVE-MISMATCH", "STEP-THREW", "TICK-STUCK",
                             "RB-INPUT-STALL-TIMEOUT", "PEER-PHANTOM", "LOCAL-FREEZE"]
                    || "FATAL" <= word || "RB-INVARIANT-" <= word
                 then Signal(word) else Ignored
  {
    SaysItsTag(line, word);
    MentionsIs(line.msg.value, "MISMATCH");
    hide Tag, Contains, Says, Mentions;
    if word == "RB-CHECK" {
      assert word !in ANY_TAGS;
      assert !("RB-INVARIANT-" <= word) && !("FATAL" <= word) by { assert word[0] == 'R' && word[3] == 'C'; }
    }
  }

  /** The line shows this signal; an out-of-range input does when its slot has at least twenty. */
  ghost predicate Shows(lines: seq<Line>, i: int, signal: string)
    requires 0 <= i < |lines|
  {
    if signal == "INPUT-OOR-STORM" then Says(lines[i], "INPUT-OOR") && |OutOfRangeFrom(lines, lines[i].slot)| >= 20
    else if signal == "RB-CHECK-MISMATCH" then Says(lines[i], "RB-CHECK") && Mentions(lines[i].msg.value, "MISMATCH")
    else
      && Says(lines[i], signal)
      && (|| signal in ["REPLAY-NORUN", "RB-INVARIANT-VIOLATION", "RB-LIVE-MISMATCH", "STEP-THREW", "TICK-STUCK",
                        "RB-INPUT-STALL-TIMEOUT", "PEER-PHANTOM", "LOCAL-FREEZE"]
          || "FATAL" <= signal || "RB-INVARIANT-" <= signal)
  }

  ghost function OutOfRangeFrom(lines: seq<Line>, slot: Option<int>): set<int> {
    set i | 0 <= i < |lines| && Says(lines[i], "INPUT-OOR") && lines[i].slot == slot
  }

  ghost function Showing(lines: seq<Line>, signal: string): set<int> {
    set i | 0 <= i < |lines| && Shows(lines, i, signal)
  }

  // ── From the selection to the lines ───────────────────────────────────────

  ghost function Selected(lines: seq<Line>, sel: Selector): set<int> {
    set i | 0 <= i < |lines| && Selects(sel, lines[i])
  }

  lemma SelectedSnoc(lines: seq<Line>, l: Line, sel: Selector)
    ensures Selected(lines + [l], sel) == if Selects(sel, l) then Selected(lines, sel) + {|lines|} else Selected(lines, sel)
    ensures |Selected(lines + [l], sel)| == |Selected(lines, sel)| + (if Selects(sel, l) then 1 else 0)
  {
    hide Selects;
    forall i | 0 <= i <= |lines|
      ensures i in Selected(lines + [l], sel) <==> if i < |lines| then i in Selected(lines, sel) else Selects(sel, l)
    {
      assert (lines + [l])[i] == if i < |lines| then lines[i] else l;
    }
    assert Selected(lines + [l], sel) == if Selects(sel, l) then Selected(lines, sel) + {|lines|} else Selected(lines, sel);
  }

  lemma NothingToSelect(sel: Selector)
    ensures Select([], sel) == [] && Selected([], sel) == {}
  {
  }

  lemma {:induction false} SelectedCount(lines: seq<Line>, sel: Selector)
    ensures |Select(lines, sel)| == |Selected(lines, sel)|
  {
    hide Selects, Selected;
    if lines == [] {
      NothingToSelect(sel);
    } else {
      var n := |lines| - 1;
      SelectedCount(lines[..n], sel);
      assert lines == lines[..n] + [lines[n]];
      SelectSnoc(lines[..n], lines[n], sel);
      SelectedSnoc(lines[..n], lines[n], sel);
    }
  }

  lemma {:induction false} SelectedFirst(lines: seq<Line>, sel: Selector)
    ensures Select(lines, sel) == [] <==> Selected(lines, sel) == {}
    ensures Select(lines, sel) != [] ==>
              exists i :: i in Selected(lines, sel) && Select(lines, sel)[0] == lines[i]
                          && forall j :: j in Selected(lines, sel) ==> i <= j
  {
    hide ClassOf;
    if lines != [] {
      var n := |lines| - 1;
      var front, l := lines[..n], lines[n];
      SelectedFirst(front, sel);
      assert lines == front + [l];
      SelectSnoc(front, l, sel);
      SelectedSnoc(front, l, sel);
      if Select(front, sel) != [] {
        var i :| i in Selected(front, sel) && Select(front, sel)[0] == front[i] && forall j :: j in Selected(front, sel) ==> i <= j;
        assert i in Selected(lines, sel) && Select(lines, sel)[0] == lines[i];
      } else if Selects(sel, l) {
        assert n in Selected(lines, sel) && Select(lines, sel)[0] == lines[n];
      }
    }
  }

  /** The frame is the earliest of those lines' frames, or none if none of them has one. */
  ghost predicate IsEarliest(first: Option<real>, lines: seq<Line>, among: set<int>)
    requires forall i :: i in among ==> 0 <= i < |lines|
  {
    && (forall i :: i in among && lines[i].frame.Some? ==> first.Some? && first.value <= lines[i].frame.value)
    && (first.Some? ==> exists i :: i in among && lines[i].frame == first)
  }

  lemma {:induction false} SelectedEarliest(lines: seq<Line>, sel: Selector)
    ensures IsEarliest(Earliest(Select(lines, sel)), lines, Selected(lines, sel))
  {
    hide Selects, Select, Earliest;
    if lines == [] {
      NothingSelected(sel);
    } else {
      var n := |lines| - 1;
      var front, l := lines[..n], lines[n];
      SelectedEarliest(front, sel);
      assert lines == front + [l];
      SelectSnoc(front, l, sel);
      EarliestSnoc(Select(front, sel), l);
      SelectedSnoc(front, l, sel);
      EarliestWith(front, l, Selected(front, sel), Selected(lines, sel), Earliest(Select(front, sel)),
                   Earliest(Select(lines, sel)), Selects(sel, l));
    }
  }

  lemma EarliestWith(front: seq<Line>, l: Line, among: set<int>, among': set<int>, first: Option<real>, first': Option<real>, more: bool)
    requires forall i :: i in among ==> 0 <= i < |front|
    requires forall i :: i in among' <==> i in among || (more && i == |front|)
    requires IsEarliest(first, front, among)
    requires first' == if more then Earlier(first, l.frame) else first
    ensures IsEarliest(first', front + [l], among')
  {
    var lines := front + [l];
    assert forall i :: i in among ==> lines[i] == front[i];
    if first'.Some? {
      if more && first' == l.frame {
        assert |front| in among' && lines[|front|].frame == first';
      } else {
        var i :| i in among && front[i].frame == first;
        assert i in among' && lines[i].frame == first';
      }
    }
  }

  lemma OutOfRangeIs(lines: seq<Line>, slot: Option<int>)
    ensures Selected(lines, BySlots({slot})) == OutOfRangeFrom(lines, slot)
  {
    forall i | 0 <= i < |lines| ensures i in Selected(lines, BySlots({slot})) <==> i in OutOfRangeFrom(lines, slot) {
      LineClass(lines[i]);
    }
  }

  lemma LineClass(line: Line)
    ensures ClassOf(line).OutOfRange? <==> Says(line, "INPUT-OOR")
    ensures ClassOf(line) == Signal("RB-CHECK-MISMATCH") <==> Says(line, "RB-CHECK") && Mentions(line.msg.value, "MISMATCH")
    ensures forall signal :: signal != "RB-CHECK-MISMATCH" ==>
              (ClassOf(line) == Signal(signal) <==>
                && Says(line, signal)
                && (|| signal in ["REPLAY-NORUN", "RB-INVARIANT-VIOLATION", "RB-LIVE-MISMATCH", "STEP-THREW", "TICK-STUCK",
                                  "RB-INPUT-STALL-TIMEOUT", "PEER-PHANTOM", "LOCAL-FREEZE"]
                    || "FATAL" <= signal || "RB-INVARIANT-" <= signal))
  {
    forall word ensures Says(line, word) <==> line.msg.Some? && word == Tag(line.msg.value) {
      SaysItsTag(line, word);
    }
    if line.msg.Some? { ClassIs(line, Tag(line.msg.value)); }
    hide Says, Mentions, Tag;
    var nowhere := "RB-CHECK-MISMATCH";
    assert nowhere[0] == 'R' && nowhere[3] == 'C';
    assert !("FATAL" <= "INPUT-OOR") by { assert "INPUT-OOR"[0] == 'I'; }
    assert !("RB-INVARIANT-" <= "INPUT-OOR") by { assert "INPUT-OOR"[0] == 'I'; }
    assert !("FATAL" <= "RB-CHECK") && !("RB-INVARIANT-" <= "RB-CHECK");
  }

  lemma SelectedIsShowing(lines: seq<Line>, signal: string)
    ensures Selected(lines, if signal == STORM then BySlots(Storms(lines)) else BySignal(signal)) == Showing(lines, signal)
  {
    var sel := if signal == STORM then BySlots(Storms(lines)) else BySignal(signal);
    forall i | 0 <= i < |lines| ensures i in Selected(lines, sel) <==> i in Showing(lines, signal) {
      LineClass(lines[i]);
      hide ClassOf, Says, Mentions;
      if signal == STORM {
        StormsIff(lines, lines[i].slot);
        SelectedCount(lines, BySlots({lines[i].slot}));
        OutOfRangeIs(lines, lines[i].slot);
      }
    }
  }

  /**
   * What the classifier finds, signal by signal: a reason if and only if some line shows the signal,
   * with the number of lines that do, the slot of the first of them, and the earliest of their frames.
   */
  lemma FoundIff(lines: seq<Line>, found: Found, signal: string)
    requires Classified(found, lines)
    ensures signal in found <==> Showing(lines, signal) != {}
    ensures signal in found ==>
              && found[signal].signal == signal && found[signal].count == |Showing(lines, signal)|
              && IsEarliest(found[signal].first, lines, Showing(lines, signal))
              && exists i :: i in Showing(lines, signal) && found[signal].slot == lines[i].slot
                             && forall j :: j in Showing(lines, signal) ==> i <= j
  {
    var sel := if signal == STORM then BySlots(Storms(lines)) else BySignal(signal);
    SelectedIsShowing(lines, signal);
    SelectedCount(lines, sel);
    SelectedFirst(lines, sel);
    SelectedEarliest(lines, sel);
    hide Showing, Selected, Select, Storms, IsEarliest;
    assert Select(lines, sel) == Matching(lines, signal);
  }
}
