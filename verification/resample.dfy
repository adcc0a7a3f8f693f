// The streaming fixed-point resampler. Models components/kvm_audio/resample.c.

module Resampling {

  type int16 = x: int | -0x8000 <= x < 0x8000
  type uint32 = x: int | 0 <= x < 0x1_0000_0000

  datatype Frame = Frame(left: int16, right: int16)

  const OUT_RATE := 48000
  const RESAMPLE_MAX := OUT_RATE / 200 + 1
  const TOP_RATE := 96000    // the fastest source
  const MAX_FRAMES := 480    // the longest block
  const ONE := 0x1_0000      // one input frame in 16.16

  // Input frames, 16.16, per output frame.
  function StepOf(rate: nat): nat {
    rate * ONE / OUT_RATE
  }

  predicate Between(a: int, b: int, v: int) {
    (a <= v <= b) || (b <= v <= a)
  }

  // v is the mean of a and b, b weighed with frac of ONE, rounded down.
  predicate MeanDown(a: int, b: int, frac: nat, v: int) {
    v * ONE <= a * (ONE - frac) + b * frac < v * ONE + ONE
  }

  /** The shift rounds down for either sign, and never leaves the two samples. */
  function Mix(a: int16, b: int16, frac: nat): (v: int16)
    requires frac < ONE
    ensures Between(a, b, v)
    ensures frac == 0 ==> v == a
    ensures MeanDown(a, b, frac, v)
  {
    MixStays(b - a, frac);
    MixRounds(a, b, frac);
    a + (b - a) * frac / ONE
  }

  lemma MixRounds(a: int, b: int, frac: nat)
    ensures MeanDown(a, b, frac, a + (b - a) * frac / ONE)
  {
    var d := (b - a) * frac;
    assert d == d / ONE * ONE + d % ONE;
    assert a * (ONE - frac) + b * frac == a * ONE + d;
  }

  lemma MixStays(d: int, frac: nat)
    requires frac < ONE
    ensures d >= 0 ==> 0 <= d * frac / ONE <= d
    ensures d <= 0 ==> d <= d * frac / ONE <= 0
    ensures frac == 0 ==> d * frac / ONE == 0
  {
    if d >= 0 {
      assert 0 <= d * frac <= d * ONE;
    } else {
      assert d * ONE <= d * frac <= 0;
    }
  }

  function MixFrames(a: Frame, b: Frame, frac: nat): Frame
    requires frac < ONE
  {
    Frame(Mix(a.left, b.left, frac), Mix(a.right, b.right, frac))
  }

  // ---- the whole input at once ----

  // The input interpolated at the 16.16 position p, one frame late.
  function SampleAt(x: seq<Frame>, p: nat): Frame
    requires p / ONE < |x|
  {
    var i := p / ONE;
    MixFrames(if i == 0 then x[0] else x[i - 1], x[i], p % ONE)
  }

  // How many multiples of step lie below the end of n frames.
  function CountTo(end: nat, step: nat): nat
    requires step > 0
  {
    (end + step - 1) / step
  }

  lemma CountToIsExact(end: nat, step: nat, j: nat)
    requires step > 0
    ensures j < CountTo(end, step) <==> j * step < end
  {
    var c := CountTo(end, step);
    assert end <= c * step < end + step by {
      assert (end + step - 1) == c * step + (end + step - 1) % step;
    }
    if j < c {
      assert j * step <= (c - 1) * step;
    } else {
      assert c * step <= j * step;
    }
  }

  function OneShot(x: seq<Frame>, step: nat): (y: seq<Frame>)
    requires step > 0
    ensures |y| == CountTo(|x| * ONE, step)
  {
    seq(CountTo(|x| * ONE, step), (j: nat) requires j < CountTo(|x| * ONE, step) =>
      CountToIsExact(|x| * ONE, step, j);
      InputIndex(j * step, |x|);
      SampleAt(x, j * step))
  }

  lemma InputIndex(p: nat, n: nat)
    requires p < n * ONE
    ensures p / ONE < n
  {
  }

  // ---- one block after another ----

  datatype Carry = Carry(pos: nat, prev: Frame, havePrev: bool)

  const RESET := Carry(0, Frame(0, 0), false)

  function BlockSample(c: Carry, b: seq<Frame>, p: nat): Frame
    requires p / ONE < |b|
  {
    var i := p / ONE;
    MixFrames(if i > 0 then b[i - 1] else if c.havePrev then c.prev else b[0], b[i], p % ONE)
  }

  function Wanted(c: Carry, b: seq<Frame>, step: nat): nat
    requires step > 0
  {
    if c.pos >= |b| * ONE then 0 else CountTo(|b| * ONE - c.pos, step)
  }

  lemma WantedIsExact(c: Carry, b: seq<Frame>, step: nat, j: nat)
    requires step > 0
    ensures j < Wanted(c, b, step) <==> c.pos + j * step < |b| * ONE
  {
    if c.pos < |b| * ONE {
      CountToIsExact(|b| * ONE - c.pos, step, j);
    } else {
      assert j * step >= 0;
    }
  }

  function Made(c: Carry, b: seq<Frame>, step: nat): nat
    requires step > 0
  {
    var w := Wanted(c, b, step);
    if w < RESAMPLE_MAX then w else RESAMPLE_MAX
  }

  function BlockOut(c: Carry, b: seq<Frame>, step: nat): (y: seq<Frame>)
    requires step > 0
    ensures |y| == Made(c, b, step)
  {
    seq(Made(c, b, step), (k: nat) requires k < Made(c, b, step) =>
      WantedIsExact(c, b, step, k);
      InputIndex(c.pos + k * step, |b|);
      BlockSample(c, b, c.pos + k * step))
  }

  function NextCarry(c: Carry, b: seq<Frame>, step: nat): Carry
    requires step > 0 && b != []
  {
    var p := c.pos + Made(c, b, step) * step;
    Carry(if p >= |b| * ONE then p - |b| * ONE else 0, b[|b| - 1], true)
  }

  // ---- the room for one block is always enough ----

  lemma StepBounds(rate: nat)
    requires 200 <= rate
    ensures 240 < StepOf(rate)
    ensures (rate / 200) * ONE <= 240 * StepOf(rate) + 240
  {
    var step := StepOf(rate);
    assert rate * ONE < step * OUT_RATE + OUT_RATE;
    assert (rate / 200) * 200 <= rate;
    assert (rate / 200) * 200 * ONE <= rate * ONE;
  }

  lemma BelowTheCap(n: nat, most: nat, step: nat)
    requires n <= most && 240 < step && most * ONE <= 240 * step + 240
    ensures n * ONE < RESAMPLE_MAX * step
  {
    assert RESAMPLE_MAX == 241;
  }

  /** A 5 ms block never reaches the cap, at any rate and any carry. */
  lemma CapNeverCuts(rate: nat, c: Carry, b: seq<Frame>)
    requires b != [] && |b| <= rate / 200
    ensures Wanted(c, b, StepOf(rate)) <= RESAMPLE_MAX
  {
    StepBounds(rate);
    var step := StepOf(rate);
    BelowTheCap(|b|, rate / 200, step);
    if Wanted(c, b, step) > RESAMPLE_MAX {
      WantedIsExact(c, b, step, RESAMPLE_MAX);
      assert false;
    }
  }

  // ---- streaming equals one-shot ----

  function Concat(blocks: seq<seq<Frame>>): seq<Frame> {
    if blocks == [] then [] else Concat(blocks[..|blocks| - 1]) + blocks[|blocks| - 1]
  }

  function StreamCarry(blocks: seq<seq<Frame>>, step: nat): Carry
    requires step > 0 && forall i | 0 <= i < |blocks| :: blocks[i] != []
  {
    if blocks == [] then RESET
    else NextCarry(StreamCarry(blocks[..|blocks| - 1], step), blocks[|blocks| - 1], step)
  }

  function StreamOut(blocks: seq<seq<Frame>>, step: nat): seq<Frame>
    requires step > 0 && forall i | 0 <= i < |blocks| :: blocks[i] != []
  {
    if blocks == [] then []
    else
      var init := blocks[..|blocks| - 1];
      StreamOut(init, step) + BlockOut(StreamCarry(init, step), blocks[|blocks| - 1], step)
  }

  // The carry of a stream that has taken all of x.
  predicate CarryOf(c: Carry, x: seq<Frame>, step: nat)
    requires step > 0
  {
    && c.pos == CountTo(|x| * ONE, step) * step - |x| * ONE
    && c.havePrev == (x != [])
    && (x != [] ==> c.prev == x[|x| - 1])
  }

  lemma CarryIsBelowStep(x: seq<Frame>, step: nat)
    requires step > 0
    ensures 0 <= CountTo(|x| * ONE, step) * step - |x| * ONE < step
  {
    var end := |x| * ONE;
    assert end + step - 1 == CountTo(end, step) * step + (end + step - 1) % step;
  }

  // Where the block falls in the whole input.
  lemma SampleShift(c: Carry, x: seq<Frame>, b: seq<Frame>, step: nat, p: nat)
    requires step > 0 && CarryOf(c, x, step) && p / ONE < |b|
    ensures (|x| * ONE + p) / ONE < |x + b|
    ensures BlockSample(c, b, p) == SampleAt(x + b, |x| * ONE + p)
  {
    assert (|x| * ONE + p) / ONE == |x| + p / ONE && (|x| * ONE + p) % ONE == p % ONE;
  }

  lemma CountSplits(c: Carry, x: seq<Frame>, b: seq<Frame>, step: nat)
    requires step > 0 && CarryOf(c, x, step)
    ensures CountTo(|x + b| * ONE, step) == CountTo(|x| * ONE, step) + Wanted(c, b, step)
  {
    var m, w := CountTo(|x| * ONE, step), Wanted(c, b, step);
    CountToIsExact(|x| * ONE, step, m);
    WantedIsExact(c, b, step, w);
    if m > 0 {
      CountToIsExact(|x| * ONE, step, m - 1);
    }
    if w > 0 {
      WantedIsExact(c, b, step, w - 1);
    }
    OneLess(m, step);
    OneLess(w, step);
    OneLess(m + w, step);
    Spread(m, w, step);
    CountIs(|x + b| * ONE, step, m + w);
  }

  lemma OneLess(n: nat, step: nat)
    ensures n > 0 ==> (n - 1) * step == n * step - step
    ensures n == 0 ==> n * step == 0
  {
  }

  lemma Spread(m: nat, w: nat, step: nat)
    ensures (m + w) * step == m * step + w * step
  {
  }

  lemma CountIs(end: nat, step: nat, k: nat)
    requires step > 0 && end <= k * step && (k > 0 ==> (k - 1) * step < end)
    ensures CountTo(end, step) == k
  {
    CountToIsExact(end, step, k);
    if k > 0 {
      CountToIsExact(end, step, k - 1);
    }
  }

  lemma NextCarryIsExact(c: Carry, x: seq<Frame>, b: seq<Frame>, step: nat)
    requires step > 0 && b != [] && CarryOf(c, x, step)
    requires Wanted(c, b, step) <= RESAMPLE_MAX
    ensures CarryOf(NextCarry(c, b, step), x + b, step)
  {
    var m, w := CountTo(|x| * ONE, step), Wanted(c, b, step);
    CountSplits(c, x, b, step);
    WantedIsExact(c, b, step, w);
    assert (m + w) * step == m * step + w * step;
  }

  lemma OneShotAt(x: seq<Frame>, step: nat, j: nat)
    requires step > 0 && j < CountTo(|x| * ONE, step)
    ensures j * step / ONE < |x|
    ensures OneShot(x, step)[j] == SampleAt(x, j * step)
  {
    CountToIsExact(|x| * ONE, step, j);
    InputIndex(j * step, |x|);
  }

  lemma BlockOutIs(c: Carry, b: seq<Frame>, step: nat, k: nat)
    requires step > 0 && k < Made(c, b, step)
    ensures (c.pos + k * step) / ONE < |b|
    ensures BlockOut(c, b, step)[k] == BlockSample(c, b, c.pos + k * step)
  {
    WantedIsExact(c, b, step, k);
    InputIndex(c.pos + k * step, |b|);
  }

  lemma BlockOutAt(c: Carry, x: seq<Frame>, b: seq<Frame>, step: nat, k: nat, p: nat)
    requires step > 0 && CarryOf(c, x, step) && k < Made(c, b, step)
    requires p == (CountTo(|x| * ONE, step) + k) * step
    ensures p / ONE < |x + b|
    ensures BlockOut(c, b, step)[k] == SampleAt(x + b, p)
  {
    BlockOutIs(c, b, step, k);
    var q := c.pos + k * step;
    assert p == |x| * ONE + q by {
      assert p == CountTo(|x| * ONE, step) * step + k * step;
    }
    SampleShift(c, x, b, step, q);
  }

  lemma SampleIsSettled(x: seq<Frame>, b: seq<Frame>, p: nat)
    requires p / ONE < |x|
    ensures SampleAt(x + b, p) == SampleAt(x, p)
  {
  }

  lemma {:induction false} OneShotSplits(c: Carry, x: seq<Frame>, b: seq<Frame>, step: nat)
    requires step > 0 && CarryOf(c, x, step)
    requires Wanted(c, b, step) <= RESAMPLE_MAX
    ensures OneShot(x + b, step) == OneShot(x, step) + BlockOut(c, b, step)
  {
    CountSplits(c, x, b, step);
    var whole, parts := OneShot(x + b, step), OneShot(x, step) + BlockOut(c, b, step);
    assert |whole| == |parts|;
    forall j | 0 <= j < |whole| ensures whole[j] == parts[j] {
      OneShotSplitsAt(c, x, b, step, j);
    }
  }

  lemma OneShotSplitsAt(c: Carry, x: seq<Frame>, b: seq<Frame>, step: nat, j: nat)
    requires step > 0 && CarryOf(c, x, step)
    requires Wanted(c, b, step) <= RESAMPLE_MAX
    requires j < CountTo(|x + b| * ONE, step) == CountTo(|x| * ONE, step) + Wanted(c, b, step)
    ensures OneShot(x + b, step)[j] == (OneShot(x, step) + BlockOut(c, b, step))[j]
  {
    var m := CountTo(|x| * ONE, step);
    OneShotAt(x + b, step, j);
    if j < m {
      OneShotAt(x, step, j);
      SampleIsSettled(x, b, j * step);
    } else {
      BlockOutAt(c, x, b, step, j - m, j * step);
    }
  }

  /** Any blocks at one rate, each of at most 5 ms, come out as the one-shot
      interpolation of all of them together, and the carry is what is left. */
  lemma {:induction false} StreamingIsOneShot(rate: nat, blocks: seq<seq<Frame>>)
    requires 0 < StepOf(rate)
    requires forall i | 0 <= i < |blocks| :: 1 <= |blocks[i]| <= rate / 200
    ensures var x, step := Concat(blocks), StepOf(rate);
            && StreamOut(blocks, step) == OneShot(x, step)
            && CarryOf(StreamCarry(blocks, step), x, step)
            && StreamCarry(blocks, step).pos == |StreamOut(blocks, step)| * step - |x| * ONE
            && StreamCarry(blocks, step).pos < step
  {
    var x, step := Concat(blocks), StepOf(rate);
    CarryIsBelowStep(x, step);
    if blocks != [] {
      var n := |blocks| - 1;
      var init, b := blocks[..n], blocks[n];
      StreamingIsOneShot(rate, init);
      var c := StreamCarry(init, step);
      CapNeverCuts(rate, c, b);
      NextCarryIsExact(c, Concat(init), b, step);
      OneShotSplits(c, Concat(init), b, step);
    } else {
      assert CountTo(0, step) == 0;
    }
  }

  /** What comes out of the whole input: as many samples as there are multiples of
      the step below its end, and each of them, on either channel, the mean of the
      input frame it falls in and the one before, by where it falls. */
  lemma OutputIsInterpolated(x: seq<Frame>, step: nat, j: nat, i: nat, frac: nat)
    requires step > 0 && j * step == i * ONE + frac && frac < ONE
    ensures j < |OneShot(x, step)| <==> i < |x|
    ensures i < |x| ==>
              var a, y := x[if i == 0 then 0 else i - 1], OneShot(x, step)[j];
              MeanDown(a.left, x[i].left, frac, y.left) && MeanDown(a.right, x[i].right, frac, y.right)
  {
    CountToIsExact(|x| * ONE, step, j);
    assert j * step / ONE == i && j * step % ONE == frac;
    if i < |x| {
      OneShotAt(x, step, j);
    }
  }

  /** Output frame j stands j/48000 of a second into the input, less than one part in
      65536 of an input frame early for each frame that came out. */
  lemma StepIsTheRate(rate: nat, j: nat)
    ensures j * StepOf(rate) * OUT_RATE <= j * rate * ONE <= j * StepOf(rate) * OUT_RATE + j * OUT_RATE
    ensures rate * ONE < StepOf(rate) * OUT_RATE + OUT_RATE
  {
    var r := rate * ONE;
    assert r == StepOf(rate) * OUT_RATE + r % OUT_RATE;
    assert j * r == j * (StepOf(rate) * OUT_RATE) + j * (r % OUT_RATE);
    assert j * (r % OUT_RATE) <= j * OUT_RATE;
    assert j * rate * ONE == j * r && j * StepOf(rate) * OUT_RATE == j * (StepOf(rate) * OUT_RATE);
  }

  /** A source at the output rate comes through as it is, one frame late. */
  lemma SameRatePassesThrough(x: seq<Frame>, j: nat)
    requires j < |x|
    ensures |OneShot(x, StepOf(OUT_RATE))| == |x|
    ensures OneShot(x, StepOf(OUT_RATE))[j] == x[if j == 0 then 0 else j - 1]
  {
    CountIs(|x| * ONE, ONE, |x|);
    assert StepOf(OUT_RATE) == ONE;
    OneShotAt(x, ONE, j);
    assert j * ONE / ONE == j && j * ONE % ONE == 0;
  }

  /** Every sample that comes out lies between the two input samples around it. */
  lemma OutputIsBetweenNeighbours(x: seq<Frame>, step: nat, j: nat)
    requires step > 0 && j < |OneShot(x, step)|
    ensures var i := j * step / ONE;
            && i < |x|
            && Between(x[if i == 0 then 0 else i - 1].left, x[i].left, OneShot(x, step)[j].left)
            && Between(x[if i == 0 then 0 else i - 1].right, x[i].right, OneShot(x, step)[j].right)
  {
    CountToIsExact(|x| * ONE, step, j);
    InputIndex(j * step, |x|);
  }

  // ---- the code's own form ----

  class Resampler {
    var rate: uint32
    var pos: uint32
    var prev: Frame
    var havePrev: bool

    function C(): Carry
      reads this
    {
      Carry(pos, prev, havePrev)
    }

    constructor ()
      ensures rate == 0 && C() == RESET
    {
      rate, pos, prev, havePrev := 0, 0, Frame(0, 0), false;
    }

    method Reset(newRate: uint32)
      modifies this
      ensures rate == newRate && C() == RESET
    {
      rate, pos, prev, havePrev := newRate, 0, Frame(0, 0), false;
    }

    method ResampleBlock(b: seq<Frame>, startUs: int, out: array<Frame>) returns (n: nat, firstUs: int)
      requires 0 < rate <= TOP_RATE
      requires 1 <= |b| <= MAX_FRAMES
      requires pos < StepOf(rate)
      requires out.Length >= RESAMPLE_MAX
      modifies this, out
      ensures rate == old(rate)
      ensures n == |BlockOut(old(C()), b, StepOf(rate))|
      ensures out[..n] == BlockOut(old(C()), b, StepOf(rate))
      ensures C() == NextCarry(old(C()), b, StepOf(rate))
      ensures pos < StepOf(rate)
      ensures firstUs == startUs + old(pos) / ONE * 1000000 / rate
    {
      ghost var c := C();
      var step: uint32 := rate * ONE / OUT_RATE;
      var end: uint32 := |b| * ONE;
      firstUs := startUs + pos / ONE * 1000000 / rate;
      n := 0;
      ghost var y := BlockOut(c, b, step);
      while pos < end && n < RESAMPLE_MAX
        invariant rate == old(rate) && prev == c.prev && havePrev == c.havePrev
        invariant n <= Made(c, b, step)
        invariant pos == c.pos + n * step
        invariant pos < end + step
        invariant forall k | 0 <= k < n :: out[k] == y[k]
        decreases RESAMPLE_MAX - n
      {
        var i := pos / ONE;
        var frac := pos % ONE;
        WantedIsExact(c, b, step, n);
        BlockOutIs(c, b, step, n);
        var b1 := b[i];
        var a := if i > 0 then b[i - 1] else if havePrev then prev else b1;
        out[n] := Frame(Mix(a.left, b1.left, frac), Mix(a.right, b1.right, frac));
        assert (n + 1) * step == n * step + step;
        pos := pos + step;
        n := n + 1;
      }
      WantedIsExact(c, b, step, n);
      pos := if pos >= end then pos - end else 0;
      prev := b[|b| - 1];
      havePrev := true;
    }
  }
}
