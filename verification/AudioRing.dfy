/**
 * The two audio rings (web/static/audio-worklet-processor.js and the ScriptProcessor fallback
 * of web/static/kn-audio.js). One repairs an overflow after writing, the other drops pair by
 * pair before writing; both are the same drop-oldest queue. Samples are reals.
 */
module AudioRing {
  import opened Basics

  // ── The queue both rings are ──────────────────────────────────────────────

  function Samples(int16: seq<int>): seq<real> {
    seq(|int16|, i requires 0 <= i < |int16| => int16[i] as real / 32768.0)
  }

  /** What the worklet drops before a quantum: toward the target, in whole pairs, at most 32. */
  function Bleed(count: nat, target: nat): (b: nat)
    ensures b <= count && b % 2 == 0 && b <= 32
    ensures count > target + 1 ==> 0 < b && target <= count - b
    ensures count <= target + 1 ==> b == 0
  {
    var over := count - target;
    if over >= 2 then Min(over - over % 2, 32) else 0
  }

  /** The frames a reader gets out of a backlog. */
  function Playable(count: nat, frames: nat): (n: nat)
    ensures 2 * n <= count
  {
    if frames <= count / 2 then frames else count / 2
  }

  /** What is left of a backlog after so many frames were asked for. */
  function Rest(q: seq<real>, frames: nat): seq<real> {
    q[2 * Playable(|q|, frames)..]
  }

  // ── Ring cells ────────────────────────────────────────────────────────────

  /** The live cells, from the read position on. */
  function Live(buf: seq<real>, read: nat, count: nat): (s: seq<real>)
    requires read < |buf| && count <= |buf|
    ensures |s| == count
  {
    if count == 0 then [] else Live(buf, read, count - 1) + [buf[Wrap(read + count - 1, |buf|)]]
  }

  lemma {:induction false} LiveAt(buf: seq<real>, read: nat, count: nat, i: nat)
    requires read < |buf| && i < count <= |buf|
    ensures Live(buf, read, count)[i] == buf[Wrap(read + i, |buf|)]
  {
    if i < count - 1 { LiveAt(buf, read, count - 1, i); }
  }

  /** Writing a cell past the live ones leaves them alone. */
  lemma {:induction false} LiveElsewhere(buf: seq<real>, read: nat, count: nat, n: nat, x: real)
    requires read < |buf| && count <= n < |buf|
    ensures Live(buf[Wrap(read + n, |buf|) := x], read, count) == Live(buf, read, count)
  {
    if count > 0 { LiveElsewhere(buf, read, count - 1, n, x); }
  }

  lemma LivePush(buf: seq<real>, read: nat, count: nat, x: real)
    requires read < |buf| && count < |buf|
    ensures Live(buf[Wrap(read + count, |buf|) := x], read, count + 1) == Live(buf, read, count) + [x]
  {
    LiveElsewhere(buf, read, count, count, x);
  }

  lemma LiveDrop(buf: seq<real>, read: nat, count: nat, k: nat)
    requires read < |buf| && k <= count <= |buf|
    ensures Wrap(read + k, |buf|) < |buf|
    ensures Live(buf, Wrap(read + k, |buf|), count - k) == Live(buf, read, count)[k..]
  {
    forall i | 0 <= i < count - k
      ensures Live(buf, Wrap(read + k, |buf|), count - k)[i] == Live(buf, read, count)[k..][i]
    {
      LiveAt(buf, Wrap(read + k, |buf|), count - k, i);
      LiveAt(buf, read, count, k + i);
    }
  }

  /** One sample more, dropping the oldest when every cell is live. */
  lemma LiveStep(buf: seq<real>, read: nat, live: nat, x: real)
    requires read < |buf| && live <= |buf|
    ensures live < |buf| ==>
              Live(buf[Wrap(read + live, |buf|) := x], read, live + 1) == Live(buf, read, live) + [x]
    ensures live == |buf| ==>
              && Wrap(read + live, |buf|) == read && Wrap(read + 1, |buf|) < |buf|
              && Live(buf[read := x], Wrap(read + 1, |buf|), live) == Live(buf, read, live)[1..] + [x]
  {
    if live < |buf| {
      LivePush(buf, read, live, x);
    } else {
      LiveDrop(buf, read, live, 1);
      LivePush(buf, Wrap(read + 1, |buf|), live - 1, x);
    }
  }

  /** The write position moves on with the live cells, or with the read position when all are live. */
  lemma NextWrite(read: nat, live: nat, size: nat)
    requires read < size && live <= size
    ensures Wrap(read + live, size) < size
    ensures Wrap(Wrap(read + live, size) + 1, size)
            == if live < size then Wrap(read + live + 1, size) else Wrap(Wrap(read + 1, size) + live, size)
  {
  }

  lemma LivePushPair(buf: seq<real>, read: nat, count: nat, l: real, r: real)
    requires read < |buf| && count + 2 <= |buf|
    ensures var write := Wrap(read + count, |buf|);
            && Wrap(write + 1, |buf|) == Wrap(read + count + 1, |buf|) < |buf|
            && Live(buf[write := l][Wrap(write + 1, |buf|) := r], read, count + 2)
               == Live(buf, read, count) + [l, r]
  {
    hide Live;
    LivePush(buf, read, count, l);
    LivePush(buf[Wrap(read + count, |buf|) := l], read, count + 1, r);
  }

  /** Taking a pair off the front. */
  lemma LivePair(buf: seq<real>, read: nat, count: nat)
    requires read < |buf| && 2 <= count <= |buf|
    ensures Wrap(read + 1, |buf|) < |buf| && Wrap(read + 2, |buf|) < |buf|
    ensures var s := Live(buf, read, count);
            && s[0] == buf[read] && s[1] == buf[Wrap(read + 1, |buf|)]
            && Live(buf, Wrap(read + 2, |buf|), count - 2) == s[2..]
  {
    LiveAt(buf, read, count, 0);
    LiveAt(buf, read, count, 1);
    LiveDrop(buf, read, count, 2);
  }

  lemma NewestSnoc(s: seq<real>, x: real, size: nat)
    requires size > 0
    ensures Newest(s + [x], size) == if |s| < size then s + [x] else Newest(s, size)[1..] + [x]
  {
  }

  lemma NewestOfNothing(s: seq<real>, int16: seq<int>, size: nat)
    requires |s| <= size
    ensures Newest(s + Samples(int16[..0]), size) == s
  {
    assert s + Samples(int16[..0]) == s;
  }

  lemma NewestSample(s: seq<real>, int16: seq<int>, i: nat, size: nat)
    requires size > 0 && i < |int16|
    ensures var q := Newest(s + Samples(int16[..i]), size);
            Newest(s + Samples(int16[..i + 1]), size)
            == (if |s| + i < size then q else q[1..]) + [int16[i] as real / 32768.0]
  {
    assert s + Samples(int16[..i + 1]) == (s + Samples(int16[..i])) + [int16[i] as real / 32768.0];
    NewestSnoc(s + Samples(int16[..i]), int16[i] as real / 32768.0, size);
  }

  /** Dropping the oldest message by message or once at the end is the same. */
  lemma NewestTwice(s: seq<real>, a: seq<real>, b: seq<real>, size: nat)
    ensures Newest(Newest(s + a, size) + b, size) == Newest(s + (a + b), size)
  {
    var c := s + a;
    assert s + (a + b) == c + b;
    if |c| > size {
      var k := |c| - size;
      assert c[k..] + b == (c + b)[k..];
      assert (c + b)[k..][|b|..] == (c + b)[k + |b|..];
    }
  }

  /** One pair of a message more. */
  lemma NextPair(s: seq<real>, int16: seq<int>, i: nat, size: nat)
    requires 2 * i + 2 <= |int16|
    ensures Newest(s + Samples(int16[..2 * (i + 1)]), size)
            == Newest(Newest(s + Samples(int16[..2 * i]), size)
                      + [int16[i * 2] as real / 32768.0, int16[i * 2 + 1] as real / 32768.0], size)
  {
    var pair := [int16[i * 2] as real / 32768.0, int16[i * 2 + 1] as real / 32768.0];
    assert Samples(int16[..2 * (i + 1)]) == Samples(int16[..2 * i]) + pair;
    hide Newest, Samples;
    NewestTwice(s, Samples(int16[..2 * i]), pair, size);
  }

  lemma NewestPair(q: seq<real>, l: real, r: real, size: nat)
    requires |q| <= size && |q| % 2 == 0 && size % 2 == 0 && size > 0
    ensures Newest(q + [l, r], size) == (if |q| + 2 > size then q[2..] else q) + [l, r]
  {
  }

  // ── The worklet ───────────────────────────────────────────────────────────

  function Ceil(x: real): int {
    if x.Floor as real == x then x.Floor else x.Floor + 1
  }

  class Worklet {
    const buf: array<real>
    const bufSize: nat
    const target: nat
    var readPos: nat
    var writePos: nat
    var count: nat

    ghost predicate Valid()
      reads this
    {
      && buf.Length == bufSize > 0
      && readPos < bufSize && count <= bufSize
      && writePos == Wrap(readPos + count, bufSize)
    }

    ghost function Contents(): seq<real>
      requires Valid()
      reads this, buf
    {
      Live(buf[..], readPos, count)
    }

    constructor (rate: real)
      requires rate > 0.0
      ensures Valid() && fresh(buf) && Contents() == []
      ensures bufSize == Ceil(rate * 0.5) * 2 && target == Ceil(rate * 0.03) * 2
    {
      bufSize := Ceil(rate * 0.5) * 2;
      buf := new real[Ceil(rate * 0.5) * 2](i => 0.0);
      target := Ceil(rate * 0.03) * 2;
      readPos, writePos, count := 0, 0, 0;
    }

    method OnMessage(int16: seq<int>)
      requires Valid()
      modifies this, buf
      ensures Valid()
      ensures Contents() == Newest(old(Contents()) + Samples(int16), bufSize)
    {
      hide Live, Advance, Samples, Newest, Wrap;
      var len := |int16|;
      ghost var before := Contents();
      // The queue as it would be if the overflow were repaired at once.
      ghost var read, live, dropped := readPos, count, 0;
      NewestOfNothing(before, int16, bufSize);
      AdvanceNone(readPos, bufSize);
      for i := 0 to len
        invariant readPos == old(readPos) && count == old(count)
        invariant live == Min(count + i, bufSize)
        invariant dropped == count + i - live && read == Advance(readPos, dropped, bufSize)
        invariant writePos == Wrap(read + live, bufSize)
        invariant Live(buf[..], read, live) == Newest(before + Samples(int16[..i]), bufSize)
      {
        ghost var x := int16[i] as real / 32768.0;
        ghost var cells := buf[..];
        NewestSample(before, int16, i, bufSize);
        LiveStep(cells, read, live, x);
        NextWrite(read, live, bufSize);
        buf[writePos] := int16[i] as real / 32768.0;
        assert buf[..] == cells[writePos := x];
        writePos := Advance(writePos, 1, bufSize);
        if live == bufSize {
          AdvanceMore(readPos, dropped, bufSize);
          read, dropped := Wrap(read + 1, bufSize), dropped + 1;
        } else {
          live := live + 1;
        }
      }
      assert int16[..len] == int16;
      count := count + len;
      if count > bufSize {
        var overflow := count - bufSize;
        readPos := Advance(readPos, overflow, bufSize);
        count := bufSize;
      }
    }

    /** Drops the bleed from the front. */
    method BleedOff()
      requires Valid()
      modifies this
      ensures Valid()
      ensures Contents() == old(Contents())[Bleed(old(count), target)..]
    {
      hide Live, Advance;
      var overTarget := count - target;
      if overTarget >= 2 {
        var bleed := Min(overTarget - overTarget % 2, 32);
        LiveDrop(buf[..], readPos, count, bleed);
        readPos := Advance(readPos, bleed, bufSize);
        count := count - bleed;
      }
    }

    /** Fills the outputs from the front. */
    method Play(outL: array<real>, outR: array<real>)
      requires Valid() && outL != outR && outL != buf && outR != buf && outL.Length == outR.Length
      modifies this`readPos, this`count, outL, outR
      ensures Valid()
      ensures var q := old(Contents());
              Contents() == Rest(q, outL.Length) && PlayedFrom(outL[..], outR[..], q)
    {
      hide Live, Advance, PlayedFrom, PairAt, Rest;
      ghost var q := Contents();
      PlayedNothing(outL[..0], outR[..0], q);
      var frames := outL.Length;
      for i := 0 to frames
        invariant Valid() && buf[..] == old(buf[..])
        invariant Contents() == Rest(q, i)
        invariant PlayedFrom(outL[..i], outR[..i], q)
      {
        ghost var l, r := outL[..i], outR[..i];
        if count >= 2 {
          LivePair(buf[..], readPos, count);
          outL[i] := buf[readPos];
          outR[i] := buf[Advance(readPos, 1, bufSize)];
          readPos := Advance(readPos, 2, bufSize);
          count := count - 2;
          DropMore(q, i);
          PairPlayed(outL[i], outR[i], q, i);
        } else {
          // Underrun: silence.
          outL[i] := 0.0;
          outR[i] := 0.0;
          PairMissing(q, i);
        }
        PlayedSnoc(l, r, outL[i], outR[i], q);
        assert outL[..i + 1] == l + [outL[i]] && outR[..i + 1] == r + [outR[i]];
      }
      assert outL[..frames] == outL[..] && outR[..frames] == outR[..];
    }

    /** One quantum. Nothing happens while there is no output to fill. */
    method Process(outL: array?<real>, outR: array?<real>)
      requires Valid()
      requires outL != null ==>
                 outR != null && outL != outR && outL != buf && outR != buf && outL.Length == outR.Length
      modifies this, outL, outR
      ensures Valid()
      ensures outL == null ==> Contents() == old(Contents())
      ensures outL != null ==>
                var q := old(Contents())[Bleed(old(count), target)..];
                Contents() == Rest(q, outL.Length) && PlayedFrom(outL[..], outR[..], q)
    {
      hide Live, Advance, PlayedFrom, Bleed, Rest;
      if outL == null { return; }
      BleedOff();
      Play(outL, outR);
    }
  }

  lemma DropMore(q: seq<real>, i: nat)
    requires |Rest(q, i)| >= 2
    ensures Rest(q, i)[2..] == Rest(q, i + 1)
  {
  }

  lemma PairPlayed(l: real, r: real, q: seq<real>, i: nat)
    requires |Rest(q, i)| >= 2
    requires l == Rest(q, i)[0] && r == Rest(q, i)[1]
    ensures PairAt(l, r, q, i)
  {
  }

  lemma PairMissing(q: seq<real>, i: nat)
    requires |Rest(q, i)| < 2
    ensures Rest(q, i) == Rest(q, i + 1) && PairAt(0.0, 0.0, q, i)
  {
  }

  /** The outputs hold the queue's pairs in order, then silence. */
  ghost predicate PlayedFrom(outL: seq<real>, outR: seq<real>, q: seq<real>) {
    && |outL| == |outR|
    && forall i :: 0 <= i < |outL| ==> PairAt(outL[i], outR[i], q, i)
  }

  lemma PlayedNothing(outL: seq<real>, outR: seq<real>, q: seq<real>)
    requires outL == [] && outR == []
    ensures PlayedFrom(outL, outR, q) && Rest(q, 0) == q
  {
  }

  lemma PlayedSnoc(outL: seq<real>, outR: seq<real>, l: real, r: real, q: seq<real>)
    requires PlayedFrom(outL, outR, q) && PairAt(l, r, q, |outL|)
    ensures PlayedFrom(outL + [l], outR + [r], q)
  {
  }

  predicate PairAt(l: real, r: real, q: seq<real>, i: nat) {
    if 2 * i + 1 < |q| then l == q[2 * i] && r == q[2 * i + 1] else l == 0.0 && r == 0.0
  }

  // ── The fallback ──────────────────────────────────────────────────────────

  class Fallback {
    const ring: array<real>
    var read: nat
    var write: nat
    var count: nat

    ghost predicate Valid()
      reads this
    {
      && ring.Length > 0 && ring.Length % 2 == 0
      && read < ring.Length && count <= ring.Length && count % 2 == 0
      && write == Wrap(read + count, ring.Length)
    }

    ghost function Contents(): seq<real>
      requires Valid()
      reads this, ring
    {
      Live(ring[..], read, count)
    }

    constructor (rate: real)
      requires rate > 0.0
      ensures Valid() && fresh(ring) && Contents() == []
      ensures ring.Length == Ceil(rate * 0.1) * 2
    {
      ring := new real[Ceil(rate * 0.1) * 2](i => 0.0);
      read, write, count := 0, 0, 0;
    }

    /** The oldest pair goes when there is no room for another. */
    method MakeRoom()
      requires Valid()
      modifies this`read, this`count
      ensures Valid() && count + 2 <= ring.Length
      ensures var q := old(Contents()); Contents() == if |q| + 2 > ring.Length then q[2..] else q
    {
      hide Live, Advance;
      if count + 2 > ring.Length {
        LiveDrop(ring[..], read, count, 2);
        read := Advance(read, 2, ring.Length);
        count := Max(0, count - 2);
      }
    }

    /** One turn of the feed: one stereo pair. */
    method PushPair(l: real, r: real)
      requires Valid()
      modifies this, ring
      ensures Valid()
      ensures Contents() == Newest(old(Contents()) + [l, r], ring.Length)
    {
      hide Live, Advance, Newest;
      var rSize := ring.Length;
      NewestPair(Contents(), l, r, rSize);
      MakeRoom();
      ghost var cells := ring[..];
      LivePushPair(cells, read, count, l, r);
      ring[write] := l;
      ring[Advance(write, 1, rSize)] := r;
      assert ring[..] == cells[write := l][Wrap(write + 1, rSize) := r];
      write := Advance(write, 2, rSize);
      count := count + 2;
    }

    method Feed(pcm: seq<int>)
      requires Valid() && |pcm| % 2 == 0
      modifies this, ring
      ensures Valid()
      ensures Contents() == Newest(old(Contents()) + Samples(pcm), ring.Length)
    {
      hide Live, Newest, Samples;
      ghost var before := Contents();
      NewestOfNothing(before, pcm, ring.Length);
      assert pcm[..2 * 0] == pcm[..0];
      for i := 0 to |pcm| / 2
        invariant Valid()
        invariant Contents() == Newest(before + Samples(pcm[..2 * i]), ring.Length)
      {
        var l, r := pcm[i * 2] as real / 32768.0, pcm[i * 2 + 1] as real / 32768.0;
        NextPair(before, pcm, i, ring.Length);
        PushPair(l, r);
      }
      assert pcm[..2 * (|pcm| / 2)] == pcm;
      count := Min(count, ring.Length);
    }

    method OnAudioProcess(outL: array<real>, outR: array<real>)
      requires Valid() && outL != outR && outL != ring && outR != ring && outL.Length == outR.Length
      modifies this, outL, outR
      ensures Valid()
      ensures var q := old(Contents());
              Contents() == Rest(q, outL.Length) && PlayedFrom(outL[..], outR[..], q)
    {
      hide Live, Advance, PlayedFrom, PairAt, Rest;
      ghost var q := Contents();
      PlayedNothing(outL[..0], outR[..0], q);
      var rSize, frames := ring.Length, outL.Length;
      for i := 0 to frames
        invariant Valid() && ring[..] == old(ring[..])
        invariant Contents() == Rest(q, i)
        invariant PlayedFrom(outL[..i], outR[..i], q)
      {
        ghost var l, r := outL[..i], outR[..i];
        if count >= 2 {
          LivePair(ring[..], read, count);
          outL[i] := ring[read];
          outR[i] := ring[Advance(read, 1, rSize)];
          read := Advance(read, 2, rSize);
          count := count - 2;
          DropMore(q, i);
          PairPlayed(outL[i], outR[i], q, i);
        } else {
          outL[i] := 0.0;
          outR[i] := 0.0;
          PairMissing(q, i);
        }
        PlayedSnoc(l, r, outL[i], outR[i], q);
        assert outL[..i + 1] == l + [outL[i]] && outR[..i + 1] == r + [outR[i]];
      }
      assert outL[..frames] == outL[..] && outR[..frames] == outR[..];
    }
  }
}
