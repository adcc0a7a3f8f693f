// One browser's bounded queue of packets. Models the reader's part of deliver
// in components/kvm_audio/opus.c.

module OpusReader {

  // Between a send that the queue refused and the next the oldest packet is
  // dropped. The reader takes packets at any time.
  datatype Phase = Idle | Refused | Dropped

  // Packets are numbered as they are sent; held waits, got was taken.
  datatype Reader = Reader(got: seq<nat>, held: seq<nat>, sent: nat, phase: Phase)

  datatype Step = Send | Drop | SendAgain | Take

  const EMPTY := Reader([], [], 0, Idle)

  // A step whose turn it is not changes nothing.
  function Next(r: Reader, depth: nat, s: Step): Reader {
    match s
    case Send =>
      if r.phase != Idle then r
      else if |r.held| < depth then Reader(r.got, r.held + [r.sent], r.sent + 1, Idle)
      else r.(phase := Refused)
    case Drop =>
      if r.phase != Refused then r
      else r.(held := if r.held == [] then [] else r.held[1..], phase := Dropped)
    case SendAgain =>
      if r.phase != Dropped then r
      else if |r.held| < depth then Reader(r.got, r.held + [r.sent], r.sent + 1, Idle)
      else r.(sent := r.sent + 1, phase := Idle)
    case Take =>
      if r.held == [] then r else r.(got := r.got + [r.held[0]], held := r.held[1..])
  }

  function Run(depth: nat, steps: seq<Step>): Reader {
    if steps == [] then EMPTY else Next(Run(depth, steps[..|steps| - 1]), depth, steps[|steps| - 1])
  }

  // A drop that found the queue emptied by the reader loses nothing.
  predicate Loses(r: Reader, s: Step) {
    s.Drop? && r.phase == Refused && r.held != []
  }

  function Lost(depth: nat, steps: seq<Step>): nat {
    if steps == [] then 0
    else
      var init := steps[..|steps| - 1];
      Lost(depth, init) + if Loses(Run(depth, init), steps[|steps| - 1]) then 1 else 0
  }

  function All(r: Reader): seq<nat> {
    r.got + r.held
  }

  predicate Ascends(s: seq<nat>, end: nat) {
    (forall i, j | 0 <= i < j < |s| :: s[i] < s[j]) && forall i | 0 <= i < |s| :: s[i] < end
  }

  // The second send always finds room.
  predicate Fits(r: Reader, depth: nat) {
    && |r.held| <= depth
    && (r.phase == Dropped ==> |r.held| < depth)
  }

  lemma {:induction false} ReaderInOrder(depth: nat, steps: seq<Step>)
    requires depth > 0
    ensures var r := Run(depth, steps);
            Ascends(All(r), r.sent) && |All(r)| + Lost(depth, steps) == r.sent && Fits(r, depth)
  {
    if steps != [] {
      var init, s := steps[..|steps| - 1], steps[|steps| - 1];
      ReaderInOrder(depth, init);
      StepInOrder(Run(depth, init), depth, s);
    }
  }

  lemma StepInOrder(r: Reader, depth: nat, s: Step)
    requires depth > 0 && Ascends(All(r), r.sent) && Fits(r, depth)
    ensures var n := Next(r, depth, s);
            && Ascends(All(n), n.sent) && Fits(n, depth)
            && |All(n)| + (if Loses(r, s) then 1 else 0) == |All(r)| + n.sent - r.sent
  {
    var n := Next(r, depth, s);
    if Loses(r, s) {
      assert forall i | 0 <= i < |r.got| :: All(n)[i] == All(r)[i];
      assert forall i | |r.got| <= i < |All(n)| :: All(n)[i] == All(r)[i + 1];
    } else if n.sent > r.sent {
      assert All(n) == All(r) + [r.sent];
    } else {
      assert All(n) == All(r);
    }
  }

  lemma {:induction false} AscendingSpan(s: seq<nat>, end: nat, i: nat)
    requires Ascends(s, end) && i < |s|
    ensures i <= s[i]
  {
    if i > 0 {
      AscendingSpan(s, end, i - 1);
    }
  }

  /** A reader misses one packet for each drop that found one; it has, taken or
      waiting, every packet sent, in order, exactly when there was no such drop. */
  lemma ReaderMissesExactly(depth: nat, steps: seq<Step>)
    requires depth > 0
    ensures var r := Run(depth, steps);
            && |All(r)| == r.sent - Lost(depth, steps)
            && (Lost(depth, steps) == 0 <==> |All(r)| == r.sent && forall i | 0 <= i < r.sent :: All(r)[i] == i)
  {
    var r := Run(depth, steps);
    ReaderInOrder(depth, steps);
    if Lost(depth, steps) == 0 {
      NothingMissing(All(r), r.sent);
    }
  }

  function Takes(n: nat): seq<Step> {
    if n == 0 then [] else Takes(n - 1) + [Take]
  }

  function Left(r: Reader, n: nat): nat {
    if n < |r.held| then |r.held| - n else 0
  }

  lemma {:induction false} AfterTakes(depth: nat, steps: seq<Step>, n: nat)
    ensures Run(depth, steps + Takes(n)).phase == Run(depth, steps).phase
    ensures |Run(depth, steps + Takes(n)).held| == Left(Run(depth, steps), n)
    ensures Lost(depth, steps + Takes(n)) == Lost(depth, steps)
  {
    if n == 0 {
      assert steps + Takes(0) == steps;
    } else {
      AfterTakes(depth, steps, n - 1);
      TakesMore(steps, n);
      OneMoreTake(depth, steps + Takes(n - 1));
    }
  }

  lemma TakesMore(steps: seq<Step>, n: nat)
    requires n > 0
    ensures steps + Takes(n) == steps + Takes(n - 1) + [Take]
  {
  }

  lemma OneMoreTake(depth: nat, steps: seq<Step>)
    ensures Run(depth, steps + [Take]).phase == Run(depth, steps).phase
    ensures |Run(depth, steps + [Take]).held| == Left(Run(depth, steps), 1)
    ensures Lost(depth, steps + [Take]) == Lost(depth, steps)
  {
    OneMore(depth, steps, Take);
  }

  lemma OneMore(depth: nat, steps: seq<Step>, s: Step)
    ensures Run(depth, steps + [s]) == Next(Run(depth, steps), depth, s)
    ensures Lost(depth, steps + [s]) == Lost(depth, steps) + if Loses(Run(depth, steps), s) then 1 else 0
  {
    assert (steps + [s])[..|steps|] == steps;
  }

  /** A packet is lost exactly at a send that found the queue full and a reader
      that did not empty it before the drop. */
  lemma FullQueueLosesExactly(depth: nat, steps: seq<Step>, n: nat)
    requires depth > 0 && Run(depth, steps).phase == Idle
    ensures Lost(depth, steps + [Send] + Takes(n) + [Drop]) - Lost(depth, steps)
            == if |Run(depth, steps).held| == depth && n < depth then 1 else 0
  {
    ReaderInOrder(depth, steps);
    OneMore(depth, steps, Send);
    AfterTakes(depth, steps + [Send], n);
    OneMore(depth, steps + [Send] + Takes(n), Drop);
  }

  lemma {:induction false} NothingMissing(s: seq<nat>, end: nat)
    requires Ascends(s, end) && |s| == end
    ensures forall i | 0 <= i < end :: s[i] == i
  {
    if end > 0 {
      var last := end - 1;
      AscendingSpan(s, end, last);
      assert forall i | 0 <= i < last :: s[..last][i] == s[i] && s[i] < s[last];
      NothingMissing(s[..last], last);
    }
  }

  // ---- marks ----

  // The sent packets' marks: marked[i] says packet i follows a gap.
  predicate GapUnmarked(r: Reader, marked: seq<bool>, i: nat)
    requires Ascends(All(r), r.sent) && |marked| == r.sent
  {
    0 < i < |All(r)| && All(r)[i] != All(r)[i - 1] + 1 && !marked[All(r)[i]]
  }

  // ---- when a reader has a gap ----

  // What the reader has, and the packet that comes next.
  function Coming(r: Reader): seq<nat> {
    All(r) + [r.sent]
  }

  predicate NoGap(s: seq<nat>) {
    forall i | 0 < i < |s| :: s[i] == s[i - 1] + 1
  }

  // A drop found a packet when the reader had taken one already.
  predicate LostAfterTake(depth: nat, steps: seq<Step>) {
    steps != [] &&
    var init := steps[..|steps| - 1];
    LostAfterTake(depth, init) || TearsAGap(Run(depth, init), steps[|steps| - 1])
  }

  predicate TearsAGap(r: Reader, s: Step) {
    Loses(r, s) && r.got != []
  }

  // At rest what was sent last is there.
  predicate LastIsThere(r: Reader) {
    r.phase != Dropped && r.sent > 0 ==> All(r) != [] && All(r)[|All(r)| - 1] == r.sent - 1
  }

  predicate Gaps(r: Reader, depth: nat, torn: bool) {
    && Ascends(All(r), r.sent) && Fits(r, depth) && LastIsThere(r)
    && (NoGap(Coming(r)) <==> !torn)
    && (torn ==> r.got != [])
  }

  lemma DropGaps(r: Reader, depth: nat, torn: bool)
    requires depth > 0 && Gaps(r, depth, torn) && Loses(r, Drop)
    ensures Gaps(Next(r, depth, Drop), depth, torn || r.got != [])
  {
    StepInOrder(r, depth, Drop);
    var n := Next(r, depth, Drop);
    var s, k := Coming(n), |r.got|;
    assert forall i | 0 <= i < k :: s[i] == Coming(r)[i];
    assert forall i | k <= i < |s| :: s[i] == Coming(r)[i + 1];
    if k > 0 {
      assert All(r)[k - 1] < All(r)[k] < s[k];
      assert s[k] != s[k - 1] + 1;
    } else {
      assert forall i | 0 < i < |s| :: Coming(r)[i + 1] == Coming(r)[i] + 1;
    }
  }

  lemma SendGaps(r: Reader, depth: nat, s: Step, torn: bool)
    requires depth > 0 && Gaps(r, depth, torn) && Next(r, depth, s).sent > r.sent
    ensures Gaps(Next(r, depth, s), depth, torn)
  {
    StepInOrder(r, depth, s);
    var n := Next(r, depth, s);
    assert All(n) == Coming(r);
    OneMoreInLine(Coming(r), n.sent);
  }

  lemma OneMoreInLine(s: seq<nat>, k: nat)
    requires s != [] && k == s[|s| - 1] + 1
    ensures NoGap(s + [k]) <==> NoGap(s)
  {
    assert forall i | 0 <= i < |s| :: (s + [k])[i] == s[i];
  }

  lemma StepGaps(r: Reader, depth: nat, s: Step, torn: bool)
    requires depth > 0 && Gaps(r, depth, torn)
    ensures Gaps(Next(r, depth, s), depth, torn || TearsAGap(r, s))
  {
    var n := Next(r, depth, s);
    if Loses(r, s) {
      DropGaps(r, depth, torn);
    } else if n.sent > r.sent {
      SendGaps(r, depth, s, torn);
    } else {
      StepInOrder(r, depth, s);
      assert All(n) == All(r);
    }
  }

  /** What a reader has, with the packet that comes next, has a gap if and only if
      a drop found a packet after the reader had taken one; what is lost before
      that is the start of the stream and leaves none. */
  lemma {:induction false} GapsExactly(depth: nat, steps: seq<Step>)
    requires depth > 0
    ensures Gaps(Run(depth, steps), depth, LostAfterTake(depth, steps))
    ensures NoGap(Coming(Run(depth, steps))) <==> !LostAfterTake(depth, steps)
  {
    if steps != [] {
      GapsExactly(depth, steps[..|steps| - 1]);
      StepGaps(Run(depth, steps[..|steps| - 1]), depth, steps[|steps| - 1],
               LostAfterTake(depth, steps[..|steps| - 1]));
    }
  }

  // A gap is one in what is coming too, and the other way round at rest.
  lemma ComingAt(r: Reader, i: nat)
    requires 0 < i < |All(r)|
    ensures Coming(r)[i] == All(r)[i] && Coming(r)[i - 1] == All(r)[i - 1]
  {
  }

  lemma NoGapMarked(r: Reader, marked: seq<bool>, i: nat)
    requires Ascends(All(r), r.sent) && |marked| == r.sent && NoGap(Coming(r))
    ensures !GapUnmarked(r, marked, i)
  {
    if 0 < i < |All(r)| {
      ComingAt(r, i);
    }
  }

  lemma GapUnmarkedBySome(r: Reader) returns (i: nat)
    requires Ascends(All(r), r.sent) && LastIsThere(r) && r.phase != Dropped && !NoGap(Coming(r))
    ensures GapUnmarked(r, seq(r.sent, _ => false), i)
  {
    i :| 0 < i < |Coming(r)| && Coming(r)[i] != Coming(r)[i - 1] + 1;
    assert i < |All(r)|;
    ComingAt(r, i);
  }

  /** So every gap a reader sees is marked, however the packets are marked, if and
      only if no such drop was made; a drop just made, with nothing left waiting,
      shows at the next packet. */
  lemma GapsAreMarkedExactly(depth: nat, steps: seq<Step>)
    requires depth > 0
    ensures var r := Run(depth, steps);
            && Ascends(All(r), r.sent)
            && (!LostAfterTake(depth, steps) ==>
                  forall marked: seq<bool>, i: nat | |marked| == r.sent :: !GapUnmarked(r, marked, i))
            && (LostAfterTake(depth, steps) && r.phase != Dropped ==>
                  exists marked: seq<bool>, i: nat :: |marked| == r.sent && GapUnmarked(r, marked, i))
  {
    var r := Run(depth, steps);
    GapsExactly(depth, steps);
    if LostAfterTake(depth, steps) {
      if r.phase != Dropped {
        var i := GapUnmarkedBySome(r);
      }
    } else {
      forall marked: seq<bool>, i: nat | |marked| == r.sent ensures !GapUnmarked(r, marked, i) {
        NoGapMarked(r, marked, i);
      }
    }
  }

  /** A full queue drops a packet that nothing marks. */
  lemma OverflowIsNotMarked()
    ensures var steps := [Send, Take, Send, Send, Drop, SendAgain];
            var r, marked := Run(1, steps), [true, false, false];
            Ascends(All(r), r.sent) && r.sent == 3 && GapUnmarked(r, marked, 1)
  {
    var steps := [Send, Take, Send, Send, Drop, SendAgain];
    var a, b := [Send], [Send, Take];
    var c := b + [Send];
    var d := c + [Send];
    var e := d + [Drop];
    assert a == [] + [Send] && b == a + [Take] && steps == e + [SendAgain];
    OneMore(1, [], Send);
    assert Run(1, a) == Reader([], [0], 1, Idle);
    OneMore(1, a, Take);
    assert Run(1, b) == Reader([0], [], 1, Idle);
    OneMore(1, b, Send);
    assert Run(1, c) == Reader([0], [1], 2, Idle);
    OneMore(1, c, Send);
    assert Run(1, d) == Reader([0], [1], 2, Refused);
    OneMore(1, d, Drop);
    OneMore(1, e, SendAgain);
    assert Run(1, steps) == Reader([0], [2], 3, Idle);
  }
}
