// HID input messages, and what folding queued pointer motion does to them.
// Models merge_mouse in components/kvm_hid/usb_hid.c.

module HidReports {

  type uint8 = x: int | 0 <= x < 0x100
  type int8 = x: int | -0x80 <= x < 0x80
  type uint16 = x: int | 0 <= x < 0x1_0000
  type int16 = x: int | -0x8000 <= x < 0x8000

  datatype AbsReport = AbsReport(buttons: uint8, x: uint16, y: uint16, wheel: int8, pan: int8)

  // dx and dy are wider in the queue than in the report that is sent.
  datatype RelMotion = RelMotion(buttons: uint8, dx: int, dy: int, wheel: int8, pan: int8)

  datatype PadReport = PadReport(buttons: uint16, hat: uint8, lx: uint8, ly: uint8, rx: uint8, ry: uint8)

  datatype Message =
    | MouseAbs(solo: bool, abs: AbsReport)
    | MouseRel(solo: bool, rel: RelMotion)
    | Key(modifier: uint8, keys: seq<uint8>)
    | Consumer(usage: uint16)
    | Pad(pad: PadReport, holdMs: nat)
    | ReleaseAll

  predicate IsMouse(m: Message) {
    m.MouseAbs? || m.MouseRel?
  }

  function Buttons(m: Message): uint8
    requires IsMouse(m)
  {
    if m.MouseAbs? then m.abs.buttons else m.rel.buttons
  }

  function Wheel(m: Message): int8
    requires IsMouse(m)
  {
    if m.MouseAbs? then m.abs.wheel else m.rel.wheel
  }

  function Pan(m: Message): int8
    requires IsMouse(m)
  {
    if m.MouseAbs? then m.abs.pan else m.rel.pan
  }

  // A pointer message that may lose its identity: no button, not a nudge.
  predicate IsIdle(m: Message) {
    IsMouse(m) && !m.solo && Buttons(m) == 0
  }

  predicate SameKind(a: Message, b: Message) {
    (a.MouseAbs? && b.MouseAbs?) || (a.MouseRel? && b.MouseRel?)
  }

  predicate CanFold(acc: Message, add: Message) {
    IsIdle(acc) && IsIdle(add) && SameKind(acc, add)
  }

  // Scroll saturates one short of the int8 range, on both sides alike.
  function ClampScroll(v: int): (r: int8)
    ensures (r == v) == (-127 <= v <= 127)
    ensures (v > 127 ==> r == 127) && (v < -127 ==> r == -127)
  {
    if v > 127 then 127 else if v < -127 then -127 else v
  }

  function Fold(acc: Message, add: Message): (r: Message)
    requires CanFold(acc, add)
    ensures IsIdle(r) && SameKind(r, add)
  {
    var wheel := ClampScroll(Wheel(acc) + Wheel(add));
    var pan := ClampScroll(Pan(acc) + Pan(add));
    if acc.MouseAbs? then
      MouseAbs(false, add.abs.(wheel := wheel, pan := pan))
    else
      MouseRel(false, RelMotion(0, acc.rel.dx + add.rel.dx, acc.rel.dy + add.rel.dy, wheel, pan))
  }

  // ---- groups: the messages that went out as one report ----

  predicate IsGroup(g: seq<Message>) {
    && 1 <= |g|
    && (|g| == 1 || forall i | 0 <= i < |g| :: IsIdle(g[i]) && SameKind(g[0], g[i]))
  }

  function FoldAll(g: seq<Message>): (r: Message)
    requires IsGroup(g)
    ensures |g| == 1 ==> r == g[0]
    ensures |g| > 1 ==> IsIdle(r) && SameKind(r, g[0])
  {
    if |g| == 1 then g[0]
    else
      var init := g[..|g| - 1];
      assert IsGroup(init) by { assert forall i | 0 <= i < |init| :: init[i] == g[i]; }
      Fold(FoldAll(init), g[|g| - 1])
  }

  predicate IsGrouping(gs: seq<seq<Message>>) {
    forall i | 0 <= i < |gs| :: IsGroup(gs[i])
  }

  function Flatten(gs: seq<seq<Message>>): seq<Message> {
    if gs == [] then [] else Flatten(gs[..|gs| - 1]) + gs[|gs| - 1]
  }

  // What goes out for a grouping: one message a group.
  function Emit(gs: seq<seq<Message>>): (out: seq<Message>)
    requires IsGrouping(gs)
    ensures |out| == |gs|
  {
    if gs == [] then [] else Emit(gs[..|gs| - 1]) + [FoldAll(gs[|gs| - 1])]
  }

  lemma FoldAllSnoc(g: seq<Message>, m: Message)
    requires IsGroup(g)
    requires CanFold(FoldAll(g), m)
    ensures IsGroup(g + [m])
    ensures FoldAll(g + [m]) == Fold(FoldAll(g), m)
  {
    assert (g + [m])[..|g|] == g;
  }
}

// The meaning of a stream of messages, defined without any folding order, and
// the theorem that folding keeps it.
module HidCoalescing {
  import opened HidReports

  // One maximal stretch of the stream: a message that must arrive as it is, or
  // a stretch of idle motion on one pointer. Scroll is a plain sum here.
  datatype Stretch =
    | Whole(m: Message)
    | AbsMotion(x: int, y: int, wheel: int, pan: int)
    | RelMotions(dx: int, dy: int, wheel: int, pan: int)

  // @param scroll  whether wheel and pan count
  function Item(m: Message, scroll: bool): Stretch {
    if !IsIdle(m) then Whole(m)
    else
      var wheel := if scroll then Wheel(m) else 0;
      var pan := if scroll then Pan(m) else 0;
      if m.MouseAbs? then AbsMotion(m.abs.x, m.abs.y, wheel, pan)
      else RelMotions(m.rel.dx, m.rel.dy, wheel, pan)
  }

  predicate Joins(a: Stretch, b: Stretch) {
    (a.AbsMotion? && b.AbsMotion?) || (a.RelMotions? && b.RelMotions?)
  }

  function Join(a: Stretch, b: Stretch): Stretch
    requires Joins(a, b)
  {
    if a.AbsMotion? then AbsMotion(b.x, b.y, a.wheel + b.wheel, a.pan + b.pan)
    else RelMotions(a.dx + b.dx, a.dy + b.dy, a.wheel + b.wheel, a.pan + b.pan)
  }

  function Push(rs: seq<Stretch>, r: Stretch): seq<Stretch> {
    var n := |rs|;
    if n > 0 && Joins(rs[n - 1], r) then rs[..n - 1] + [Join(rs[n - 1], r)] else rs + [r]
  }

  function Meaning(s: seq<Message>, scroll: bool): seq<Stretch> {
    if s == [] then []
    else Push(Meaning(s[..|s| - 1], scroll), Item(s[|s| - 1], scroll))
  }

  // ---- scroll sums ----

  function WheelSum(s: seq<Message>): int {
    if s == [] then 0
    else WheelSum(s[..|s| - 1]) + (if IsIdle(s[|s| - 1]) then Wheel(s[|s| - 1]) else 0)
  }

  function PanSum(s: seq<Message>): int {
    if s == [] then 0
    else PanSum(s[..|s| - 1]) + (if IsIdle(s[|s| - 1]) then Pan(s[|s| - 1]) else 0)
  }

  predicate ScrollFits(g: seq<Message>) {
    -127 <= WheelSum(g) <= 127 && -127 <= PanSum(g) <= 127
  }

  // No report built from the group saturates on the way.
  predicate PrefixesFit(g: seq<Message>) {
    forall k | 2 <= k <= |g| :: ScrollFits(g[..k])
  }

  // Every consecutive block that could go out as one report fits in a report.
  predicate BlocksFit(s: seq<Message>) {
    forall i, j | 0 <= i && i + 2 <= j <= |s| && IsGroup(s[i..j]) :: ScrollFits(s[i..j])
  }

  lemma {:induction false} PushJoined(rs: seq<Stretch>, a: Stretch, b: Stretch)
    requires Joins(a, b)
    ensures Push(Push(rs, a), b) == Push(rs, Join(a, b))
  {
    var n := |rs|;
    if n > 0 && Joins(rs[n - 1], a) {
      var once := Push(rs, a);
      assert once[..n - 1] == rs[..n - 1];
    } else {
      assert (rs + [a])[..n] == rs;
    }
  }

  function PushAll(rs: seq<Stretch>, g: seq<Message>, scroll: bool): seq<Stretch> {
    if g == [] then rs else Push(PushAll(rs, g[..|g| - 1], scroll), Item(g[|g| - 1], scroll))
  }

  lemma {:induction false} MeaningAppend(s: seq<Message>, g: seq<Message>, scroll: bool)
    ensures Meaning(s + g, scroll) == PushAll(Meaning(s, scroll), g, scroll)
  {
    if g == [] {
      assert s + g == s;
    } else {
      var n := |g| - 1;
      assert (s + g)[..|s + g| - 1] == s + g[..n];
      MeaningAppend(s, g[..n], scroll);
    }
  }

  // While nothing saturates, the pending report holds the plain sums.
  lemma {:induction false} FoldAllSums(g: seq<Message>)
    requires IsGroup(g) && IsIdle(g[0])
    requires PrefixesFit(g)
    ensures IsIdle(FoldAll(g))
    ensures Wheel(FoldAll(g)) == WheelSum(g) && Pan(FoldAll(g)) == PanSum(g)
  {
    if |g| == 1 {
      assert g[..0] == [];
    } else {
      var init := g[..|g| - 1];
      assert IsGroup(init) by { assert forall i | 0 <= i < |init| :: init[i] == g[i]; }
      forall k | 2 <= k <= |init| ensures ScrollFits(init[..k]) {
        assert init[..k] == g[..k];
      }
      FoldAllSums(init);
      assert g[..|g|] == g;
    }
  }

  // One more message in the group is one more message in the stretch.
  lemma {:induction false} ItemSnoc(init: seq<Message>, m: Message, scroll: bool)
    requires IsGroup(init) && CanFold(FoldAll(init), m)
    requires scroll ==> IsGroup(init + [m]) && PrefixesFit(init) && PrefixesFit(init + [m])
    ensures Joins(Item(FoldAll(init), scroll), Item(m, scroll))
    ensures Item(Fold(FoldAll(init), m), scroll) == Join(Item(FoldAll(init), scroll), Item(m, scroll))
  {
    if scroll {
      FoldAllSums(init);
      var g := init + [m];
      assert g[..|g|] == g && g[..|g| - 1] == init;
      assert ScrollFits(g[..|g|]);
    }
  }

  lemma {:induction false} PushGroup(rs: seq<Stretch>, g: seq<Message>, scroll: bool)
    requires IsGroup(g)
    requires scroll ==> PrefixesFit(g)
    ensures PushAll(rs, g, scroll) == Push(rs, Item(FoldAll(g), scroll))
  {
    if |g| == 1 {
      assert g[..0] == [];
    } else {
      var n := |g| - 1;
      var init, m := g[..n], g[n];
      assert g == init + [m];
      assert IsGroup(init) by { assert forall i | 0 <= i < |init| :: init[i] == g[i]; }
      if scroll {
        forall k | 2 <= k <= |init| ensures ScrollFits(init[..k]) {
          assert init[..k] == g[..k];
        }
      }
      PushGroup(rs, init, scroll);
      ItemSnoc(init, m, scroll);
      PushJoined(rs, Item(FoldAll(init), scroll), Item(m, scroll));
    }
  }

  /** However the worker groups what it takes from the queue, the reports it
      sends mean what the messages meant. With scroll, as long as no report
      saturates. */
  lemma {:induction false} CoalescingKeepsMeaning(gs: seq<seq<Message>>, scroll: bool)
    requires IsGrouping(gs)
    requires scroll ==> forall i | 0 <= i < |gs| :: PrefixesFit(gs[i])
    ensures Meaning(Emit(gs), scroll) == Meaning(Flatten(gs), scroll)
  {
    if gs != [] {
      var n := |gs| - 1;
      var init, g := gs[..n], gs[n];
      CoalescingKeepsMeaning(init, scroll);
      MeaningAppend(Flatten(init), g, scroll);
      PushGroup(Meaning(Flatten(init), scroll), g, scroll);
      assert Emit(gs)[..n] == Emit(init);
    }
  }

  // ---- what the meaning says ----

  function Wholes(s: seq<Message>): seq<Message> {
    if s == [] then []
    else Wholes(s[..|s| - 1]) + (if IsIdle(s[|s| - 1]) then [] else [s[|s| - 1]])
  }

  function WholesOf(rs: seq<Stretch>): seq<Message> {
    if rs == [] then []
    else WholesOf(rs[..|rs| - 1]) + (if rs[|rs| - 1].Whole? then [rs[|rs| - 1].m] else [])
  }

  lemma {:induction false} WholesPush(rs: seq<Stretch>, r: Stretch)
    ensures WholesOf(Push(rs, r)) == WholesOf(rs) + (if r.Whole? then [r.m] else [])
  {
    var pushed := Push(rs, r);
    assert pushed[..|pushed| - 1] == if |pushed| == |rs| then rs[..|rs| - 1] else rs;
  }

  lemma {:induction false} WholesFromMeaning(s: seq<Message>, scroll: bool)
    ensures WholesOf(Meaning(s, scroll)) == Wholes(s)
  {
    if s != [] {
      WholesFromMeaning(s[..|s| - 1], scroll);
      WholesPush(Meaning(s[..|s| - 1], scroll), Item(s[|s| - 1], scroll));
    }
  }

  // The buttons a pointer reports, with repeats left out.
  function Append(trail: seq<uint8>, b: uint8): seq<uint8> {
    if trail != [] && trail[|trail| - 1] == b then trail else trail + [b]
  }

  function ButtonTrail(s: seq<Message>, absolute: bool): seq<uint8> {
    if s == [] then []
    else
      var trail, m := ButtonTrail(s[..|s| - 1], absolute), s[|s| - 1];
      if (absolute && m.MouseAbs?) || (!absolute && m.MouseRel?) then Append(trail, Buttons(m)) else trail
  }

  function TrailStep(trail: seq<uint8>, r: Stretch, absolute: bool): seq<uint8> {
    match r
    case Whole(m) =>
      if (absolute && m.MouseAbs?) || (!absolute && m.MouseRel?) then Append(trail, Buttons(m)) else trail
    case AbsMotion(_, _, _, _) => if absolute then Append(trail, 0) else trail
    case RelMotions(_, _, _, _) => if absolute then trail else Append(trail, 0)
  }

  function TrailOf(rs: seq<Stretch>, absolute: bool): seq<uint8> {
    if rs == [] then [] else TrailStep(TrailOf(rs[..|rs| - 1], absolute), rs[|rs| - 1], absolute)
  }

  lemma {:induction false} TrailPush(rs: seq<Stretch>, r: Stretch, absolute: bool)
    ensures TrailOf(Push(rs, r), absolute) == TrailStep(TrailOf(rs, absolute), r, absolute)
  {
    var pushed := Push(rs, r);
    if |rs| > 0 && Joins(rs[|rs| - 1], r) {
      assert pushed[..|pushed| - 1] == rs[..|rs| - 1];
      var before := TrailOf(rs[..|rs| - 1], absolute);
      assert TrailOf(pushed, absolute) == TrailStep(before, Join(rs[|rs| - 1], r), absolute);
    } else {
      assert pushed[..|pushed| - 1] == rs;
    }
  }

  lemma {:induction false} TrailFromMeaning(s: seq<Message>, absolute: bool, scroll: bool)
    ensures TrailOf(Meaning(s, scroll), absolute) == ButtonTrail(s, absolute)
  {
    if s != [] {
      var m := s[|s| - 1];
      TrailFromMeaning(s[..|s| - 1], absolute, scroll);
      TrailPush(Meaning(s[..|s| - 1], scroll), Item(m, scroll), absolute);
    }
  }

  /** Non-mouse, solo and held-button messages go out unchanged and in order,
      and no button edge of either pointer is dropped or made up. */
  lemma {:induction false} CoalescingKeepsEvents(gs: seq<seq<Message>>)
    requires IsGrouping(gs)
    ensures Wholes(Emit(gs)) == Wholes(Flatten(gs))
    ensures forall absolute :: ButtonTrail(Emit(gs), absolute) == ButtonTrail(Flatten(gs), absolute)
  {
    CoalescingKeepsMeaning(gs, false);
    WholesFromMeaning(Emit(gs), false);
    WholesFromMeaning(Flatten(gs), false);
    forall absolute ensures ButtonTrail(Emit(gs), absolute) == ButtonTrail(Flatten(gs), absolute) {
      TrailFromMeaning(Emit(gs), absolute, false);
      TrailFromMeaning(Flatten(gs), absolute, false);
    }
  }

  // ---- exactly when scroll survives every schedule ----

  lemma {:induction false} FlattenSplit(gs: seq<seq<Message>>, k: nat) returns (at: nat)
    requires k < |gs|
    ensures at + |gs[k]| <= |Flatten(gs)|
    ensures Flatten(gs)[at..at + |gs[k]|] == gs[k]
  {
    var n := |gs| - 1;
    var init := gs[..n];
    if k == n {
      at := |Flatten(init)|;
    } else {
      at := FlattenSplit(init, k);
      assert Flatten(gs)[at..at + |gs[k]|] == Flatten(init)[at..at + |gs[k]|];
    }
  }

  lemma {:induction false} BlocksFitMeansPrefixesFit(gs: seq<seq<Message>>, k: nat)
    requires IsGrouping(gs) && k < |gs|
    requires BlocksFit(Flatten(gs))
    ensures PrefixesFit(gs[k])
  {
    var s, g := Flatten(gs), gs[k];
    var at := FlattenSplit(gs, k);
    forall j | 2 <= j <= |g| ensures ScrollFits(g[..j]) {
      assert s[at..at + j] == g[..j] by { assert g[..j] == s[at..at + |g|][..j]; }
      assert IsGroup(g[..j]) by { assert forall i | 0 <= i < j :: g[..j][i] == g[i]; }
    }
  }

  function StretchWheel(rs: seq<Stretch>): int {
    if rs == [] then 0
    else StretchWheel(rs[..|rs| - 1]) + (if rs[|rs| - 1].Whole? then 0 else rs[|rs| - 1].wheel)
  }

  function StretchPan(rs: seq<Stretch>): int {
    if rs == [] then 0
    else StretchPan(rs[..|rs| - 1]) + (if rs[|rs| - 1].Whole? then 0 else rs[|rs| - 1].pan)
  }

  lemma {:induction false} SumsPush(rs: seq<Stretch>, r: Stretch)
    ensures StretchWheel(Push(rs, r)) == StretchWheel(rs) + (if r.Whole? then 0 else r.wheel)
    ensures StretchPan(Push(rs, r)) == StretchPan(rs) + (if r.Whole? then 0 else r.pan)
  {
    var pushed := Push(rs, r);
    assert pushed[..|pushed| - 1] == if |pushed| == |rs| then rs[..|rs| - 1] else rs;
  }

  lemma {:induction false} SumsFromMeaning(s: seq<Message>)
    ensures StretchWheel(Meaning(s, true)) == WheelSum(s)
    ensures StretchPan(Meaning(s, true)) == PanSum(s)
  {
    if s != [] {
      SumsFromMeaning(s[..|s| - 1]);
      SumsPush(Meaning(s[..|s| - 1], true), Item(s[|s| - 1], true));
    }
  }

  lemma {:induction false} SumsAppend(a: seq<Message>, b: seq<Message>)
    ensures WheelSum(a + b) == WheelSum(a) + WheelSum(b)
    ensures PanSum(a + b) == PanSum(a) + PanSum(b)
  {
    if b == [] {
      assert a + b == a;
    } else {
      assert (a + b)[..|a + b| - 1] == a + b[..|b| - 1];
      SumsAppend(a, b[..|b| - 1]);
    }
  }

  // The schedule that never folds.
  function Singles(s: seq<Message>): (gs: seq<seq<Message>>)
    ensures |gs| == |s| && forall i | 0 <= i < |s| :: gs[i] == [s[i]]
  {
    if s == [] then [] else Singles(s[..|s| - 1]) + [[s[|s| - 1]]]
  }

  lemma {:induction false} SinglesAreExact(s: seq<Message>)
    ensures Flatten(Singles(s)) == s && Emit(Singles(s)) == s
  {
    if s != [] {
      var n := |s| - 1;
      SinglesAreExact(s[..n]);
      assert Singles(s)[..n] == Singles(s[..n]);
    }
  }

  lemma {:induction false} FlattenAppend(a: seq<seq<Message>>, b: seq<seq<Message>>)
    ensures Flatten(a + b) == Flatten(a) + Flatten(b)
  {
    if b == [] {
      assert a + b == a;
    } else {
      assert (a + b)[..|a + b| - 1] == a + b[..|b| - 1];
      FlattenAppend(a, b[..|b| - 1]);
    }
  }

  lemma {:induction false} EmitAppend(a: seq<seq<Message>>, b: seq<seq<Message>>)
    requires IsGrouping(a) && IsGrouping(b)
    ensures IsGrouping(a + b) && Emit(a + b) == Emit(a) + Emit(b)
  {
    if b == [] {
      assert a + b == a;
    } else {
      assert (a + b)[..|a + b| - 1] == a + b[..|b| - 1];
      EmitAppend(a, b[..|b| - 1]);
    }
  }

  // The first overlong block from i on saturates only at its last message.
  lemma {:induction false} FirstOverflow(s: seq<Message>, i: nat, j: nat) returns (k: nat)
    requires i + 2 <= j <= |s| && IsGroup(s[i..j]) && !ScrollFits(s[i..j])
    ensures i + 2 <= k <= j && IsGroup(s[i..k]) && !ScrollFits(s[i..k])
    ensures forall m | 2 <= m < k - i :: ScrollFits(s[i..k][..m])
    decreases j
  {
    if m :| 2 <= m < j - i && !ScrollFits(s[i..j][..m]) {
      assert s[i..j][..m] == s[i..i + m];
      assert IsGroup(s[i..i + m]) by { assert forall x | 0 <= x < m :: s[i..i + m][x] == s[i..j][x]; }
      k := FirstOverflow(s, i, i + m);
    } else {
      k := j;
    }
  }

  lemma {:induction false} OverflowChangesSum(g: seq<Message>)
    requires IsGroup(g) && |g| >= 2 && !ScrollFits(g)
    requires forall m | 2 <= m < |g| :: ScrollFits(g[..m])
    ensures Wheel(FoldAll(g)) != WheelSum(g) || Pan(FoldAll(g)) != PanSum(g)
  {
    var init := g[..|g| - 1];
    assert IsGroup(init) by { assert forall i | 0 <= i < |init| :: init[i] == g[i]; }
    forall k | 2 <= k <= |init| ensures ScrollFits(init[..k]) {
      assert init[..k] == g[..k];
    }
    FoldAllSums(init);
  }

  // The schedule that folds one block of the stream and nothing else.
  lemma {:induction false} FoldOnly(a: seq<Message>, g: seq<Message>, b: seq<Message>)
    returns (gs: seq<seq<Message>>)
    requires IsGroup(g)
    ensures IsGrouping(gs) && Flatten(gs) == a + g + b && Emit(gs) == a + [FoldAll(g)] + b
  {
    SinglesAreExact(a);
    SinglesAreExact(b);
    assert [g][..0] == [];
    assert Flatten([g]) == g && Emit([g]) == [FoldAll(g)];
    FlattenAppend(Singles(a), [g]);
    EmitAppend(Singles(a), [g]);
    var front := Singles(a) + [g];
    gs := front + Singles(b);
    FlattenAppend(front, Singles(b));
    EmitAppend(front, Singles(b));
  }

  lemma {:induction false} SumsOfThree(a: seq<Message>, b: seq<Message>, c: seq<Message>)
    ensures WheelSum(a + b + c) == WheelSum(a) + WheelSum(b) + WheelSum(c)
    ensures PanSum(a + b + c) == PanSum(a) + PanSum(b) + PanSum(c)
  {
    SumsAppend(a, b);
    SumsAppend(a + b, c);
  }

  lemma {:induction false} SumsOfOne(m: Message)
    requires IsIdle(m)
    ensures WheelSum([m]) == Wheel(m) && PanSum([m]) == Pan(m)
  {
    assert [m][..0] == [];
  }

  // A block that does not fit has a schedule that loses scroll on it.
  lemma {:induction false} LosingSchedule(s: seq<Message>, i: nat, j: nat) returns (gs: seq<seq<Message>>)
    requires i + 2 <= j <= |s| && IsGroup(s[i..j]) && !ScrollFits(s[i..j])
    ensures IsGrouping(gs) && Flatten(gs) == s
    ensures Meaning(Emit(gs), true) != Meaning(s, true)
  {
    var k := FirstOverflow(s, i, j);
    var a, g, b := s[..i], s[i..k], s[k..];
    assert s == a + g + b;
    gs := FoldOnly(a, g, b);
    OverflowChangesSum(g);
    SumsOfThree(a, g, b);
    SumsOfThree(a, [FoldAll(g)], b);
    SumsOfOne(FoldAll(g));
    SumsFromMeaning(Emit(gs));
    SumsFromMeaning(s);
  }

  ghost predicate ScrollSurvives(s: seq<Message>) {
    forall gs | IsGrouping(gs) && Flatten(gs) == s :: Meaning(Emit(gs), true) == Meaning(s, true)
  }

  /** Wheel and pan reach the target whole on every schedule exactly when no
      block of idle messages that can be folded together adds up to more than
      one report can carry. */
  lemma {:induction false} ScrollSurvivesExactly(s: seq<Message>)
    ensures ScrollSurvives(s) <==> BlocksFit(s)
  {
    if BlocksFit(s) {
      forall gs | IsGrouping(gs) && Flatten(gs) == s ensures Meaning(Emit(gs), true) == Meaning(s, true) {
        forall k | 0 <= k < |gs| ensures PrefixesFit(gs[k]) {
          BlocksFitMeansPrefixesFit(gs, k);
        }
        CoalescingKeepsMeaning(gs, true);
      }
    } else {
      var i, j :| 0 <= i && i + 2 <= j <= |s| && IsGroup(s[i..j]) && !ScrollFits(s[i..j]);
      var gs := LosingSchedule(s, i, j);
    }
  }

  function AbsMove(x: uint16, wheel: int8): Message {
    MouseAbs(false, AbsReport(0, x, 0, wheel, 0))
  }

  /** Sums counted from the start of an idle stretch staying within 127 is not
      enough: a report may start anywhere in the stretch. */
  lemma {:induction false} RunningSumIsNotEnough()
    ensures var s := [AbsMove(1, 127), AbsMove(2, -127), AbsMove(3, -127)];
            && (forall k | 0 <= k <= |s| :: ScrollFits(s[..k]))
            && !ScrollSurvives(s)
  {
    var s := [AbsMove(1, 127), AbsMove(2, -127), AbsMove(3, -127)];
    SumsOfOne(s[0]);
    SumsOfOne(s[1]);
    SumsOfOne(s[2]);
    SumsAppend([s[0]], [s[1]]);
    SumsAppend([s[0], s[1]], [s[2]]);
    SumsAppend([s[1]], [s[2]]);
    forall k | 0 <= k <= |s| ensures ScrollFits(s[..k]) {
      assert s[..k] == if k == 0 then [] else if k == 1 then [s[0]] else if k == 2 then [s[0]] + [s[1]]
                       else [s[0], s[1]] + [s[2]];
    }
    assert s[1..3] == [s[1]] + [s[2]];
    assert !BlocksFit(s);
    ScrollSurvivesExactly(s);
  }

  /** A release folds into a later idle move: the edge stays, at the later place. */
  lemma {:induction false} ReleaseMayMove()
    ensures var press := MouseAbs(false, AbsReport(1, 5, 5, 0, 0));
            var release := MouseAbs(false, AbsReport(0, 5, 5, 0, 0));
            var move := MouseAbs(false, AbsReport(0, 9, 9, 0, 0));
            var gs := [[press], [release, move]];
            && IsGrouping(gs) && Flatten(gs) == [press, release, move]
            && Emit(gs) == [press, move]
            && ButtonTrail(Emit(gs), true) == [1, 0]
            && !EdgesStay([press, release, move])
  {
    var press := MouseAbs(false, AbsReport(1, 5, 5, 0, 0));
    var release := MouseAbs(false, AbsReport(0, 5, 5, 0, 0));
    var move := MouseAbs(false, AbsReport(0, 9, 9, 0, 0));
    var gs := [[press], [release, move]];
    assert gs[..1][..0] == [] && gs[..1] == [[press]];
    assert [release, move][..1] == [release];
    assert Emit(gs[..1]) == [press] && Flatten(gs[..1]) == [press];
    assert [press, move][..1] == [press] && [press][..0] == [];
    assert ButtonTrail([press], true) == [1];
    var s := [press, release, move];
    assert s[..1] == [press] && s[1..3] == [release, move] && LastButtons([press]) == 1;
    assert MovesEdge(s, 1, 3);
    EdgesStayExactly(s);
  }

  // ---- exactly when every button edge keeps its place ----

  // A change of the absolute pointer's buttons, and where it is reported.
  datatype Edge = Edge(buttons: uint8, x: uint16, y: uint16)

  function LastButtons(s: seq<Message>): uint8 {
    if s == [] then 0
    else if s[|s| - 1].MouseAbs? then s[|s| - 1].abs.buttons
    else LastButtons(s[..|s| - 1])
  }

  function Edges(s: seq<Message>): seq<Edge> {
    if s == [] then [] else Edges(s[..|s| - 1]) + EdgeOf(LastButtons(s[..|s| - 1]), s[|s| - 1])
  }

  function EdgeOf(before: uint8, m: Message): seq<Edge> {
    if m.MouseAbs? && m.abs.buttons != before then [Edge(m.abs.buttons, m.abs.x, m.abs.y)] else []
  }

  predicate SamePlace(a: Message, b: Message) {
    a.MouseAbs? && b.MouseAbs? ==> a.abs.x == b.abs.x && a.abs.y == b.abs.y
  }

  // Messages i to j - 1 go into one report on some schedule, the first of them
  // ends a press, and the last is at another place.
  predicate MovesEdge(s: seq<Message>, i: int, j: int) {
    && 0 <= i && i + 2 <= j <= |s| && IsGroup(s[i..j]) && s[i].MouseAbs?
    && LastButtons(s[..i]) != 0 && !SamePlace(s[i], s[j - 1])
  }

  ghost predicate EdgesHaveRoom(s: seq<Message>) {
    forall i, j :: !MovesEdge(s, i, j)
  }

  ghost predicate EdgesStay(s: seq<Message>) {
    forall gs | IsGrouping(gs) && Flatten(gs) == s :: Edges(Emit(gs)) == Edges(s)
  }

  lemma OneMoreEdge(s: seq<Message>, m: Message)
    ensures Edges(s + [m]) == Edges(s) + EdgeOf(LastButtons(s), m)
    ensures LastButtons(s + [m]) == if m.MouseAbs? then m.abs.buttons else LastButtons(s)
  {
    assert (s + [m])[..|s|] == s;
  }

  lemma NoMoreEdge(s: seq<Message>, m: Message)
    requires m.MouseAbs? ==> LastButtons(s) == m.abs.buttons
    ensures Edges(s + [m]) == Edges(s) && LastButtons(s + [m]) == LastButtons(s)
  {
    OneMoreEdge(s, m);
  }

  lemma {:induction false} EdgesOfGroup(s: seq<Message>, g: seq<Message>)
    requires IsGroup(g)
    ensures Edges(s + g) == Edges(s) + EdgeOf(LastButtons(s), g[0])
    ensures LastButtons(s + g) == if g[0].MouseAbs? then g[0].abs.buttons else LastButtons(s)
  {
    if |g| == 1 {
      OneMoreEdge(s, g[0]);
      assert g == [g[0]];
    } else {
      var init, m := g[..|g| - 1], g[|g| - 1];
      assert IsGroup(init) by { assert forall i | 0 <= i < |init| :: init[i] == g[i]; }
      EdgesOfGroup(s, init);
      NoMoreEdge(s + init, m);
      assert s + init + [m] == s + g;
    }
  }

  lemma {:induction false} FoldAllIsLast(g: seq<Message>)
    requires IsGroup(g)
    ensures FoldAll(g).MouseAbs? == g[0].MouseAbs?
    ensures g[0].MouseAbs? ==> FoldAll(g).abs.buttons == g[0].abs.buttons && SamePlace(FoldAll(g), g[|g| - 1])
  {
    if |g| > 1 {
      var init := g[..|g| - 1];
      assert IsGroup(init) by { assert forall i | 0 <= i < |init| :: init[i] == g[i]; }
      FoldAllIsLast(init);
    }
  }

  lemma {:induction false} GroupsStartIn(s: seq<Message>, gs: seq<seq<Message>>, rest: seq<Message>)
    requires IsGrouping(gs) && s == Flatten(gs) + rest && EdgesHaveRoom(s)
    ensures Edges(Emit(gs)) == Edges(Flatten(gs)) && LastButtons(Emit(gs)) == LastButtons(Flatten(gs))
    decreases |gs|
  {
    if gs != [] {
      var n := |gs| - 1;
      var init, g := gs[..n], gs[n];
      var front := Flatten(init);
      assert front + (g + rest) == s;
      GroupsStartIn(s, init, g + rest);
      EdgesOfGroup(front, g);
      FoldAllIsLast(g);
      assert Emit(gs)[..n] == Emit(init);
      OneMoreEdge(Emit(init), FoldAll(g));
      if |g| > 1 {
        var i, j := |front|, |front| + |g|;
        assert s[i..j] == g && s[..i] == front && s[i] == g[0] && s[j - 1] == g[|g| - 1];
        assert !MovesEdge(s, i, j);
      }
    }
  }

  lemma {:induction false} EdgesExtend(a: seq<Message>, b: seq<Message>)
    ensures |Edges(a)| <= |Edges(a + b)| && Edges(a + b)[..|Edges(a)|] == Edges(a)
  {
    if b == [] {
      assert a + b == a;
    } else {
      assert (a + b)[..|a + b| - 1] == a + b[..|b| - 1];
      EdgesExtend(a, b[..|b| - 1]);
    }
  }

  /** Every button edge of the absolute pointer keeps its place on every schedule
      if and only if no message that ends a press can go into one report with a
      later idle one at another place. */
  lemma {:induction false} EdgesStayExactly(s: seq<Message>)
    ensures EdgesStay(s) <==> EdgesHaveRoom(s)
  {
    if EdgesHaveRoom(s) {
      forall gs | IsGrouping(gs) && Flatten(gs) == s ensures Edges(Emit(gs)) == Edges(s) {
        assert s == Flatten(gs) + [];
        GroupsStartIn(s, gs, []);
      }
    } else {
      var i, j :| MovesEdge(s, i, j);
      var gs := MovingSchedule(s, i, j);
    }
  }

  // The schedule that reports the release at the later place.
  lemma MovingSchedule(s: seq<Message>, i: int, j: int) returns (gs: seq<seq<Message>>)
    requires MovesEdge(s, i, j)
    ensures IsGrouping(gs) && Flatten(gs) == s && Edges(Emit(gs)) != Edges(s)
  {
    var a, g, b := s[..i], s[i..j], s[j..];
    assert s == a + g + b;
    gs := FoldOnly(a, g, b);
    FoldAllIsLast(g);
    EdgesOfGroup(a, g);
    OneMoreEdge(a, FoldAll(g));
    EdgesDiffer(a + g, a + [FoldAll(g)], b, |Edges(a)|);
  }

  lemma EdgesDiffer(a: seq<Message>, c: seq<Message>, b: seq<Message>, k: nat)
    requires k < |Edges(a)| && k < |Edges(c)| && Edges(a)[k] != Edges(c)[k]
    ensures Edges(a + b) != Edges(c + b)
  {
    EdgesExtend(a, b);
    EdgesExtend(c, b);
    assert Edges(a + b)[k] == Edges(a)[k] && Edges(c + b)[k] == Edges(c)[k];
  }

  // ---- motion sums fit the queue's 32-bit fields ----

  lemma {:induction false} MotionFits(g: seq<Message>)
    requires IsGroup(g) && g[0].MouseRel?
    requires forall i | 0 <= i < |g| && g[i].MouseRel? ::
               -0x8000 <= g[i].rel.dx < 0x8000 && -0x8000 <= g[i].rel.dy < 0x8000
    ensures FoldAll(g).MouseRel?
    ensures -0x8000 * |g| <= FoldAll(g).rel.dx <= 0x8000 * |g|
    ensures -0x8000 * |g| <= FoldAll(g).rel.dy <= 0x8000 * |g|
  {
    if |g| > 1 {
      var init := g[..|g| - 1];
      assert IsGroup(init) by { assert forall i | 0 <= i < |init| :: init[i] == g[i]; }
      MotionFits(init);
    }
  }
}
