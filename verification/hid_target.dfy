// What the target gets of the messages, report by report and in all, told
// without the device's own steps. Models dispatch, send_rel and the other
// senders in components/kvm_hid/usb_hid.c.

module HidCarried {
  import opened HidReports
  import opened HidPort

  // The nearest value that a report can carry.
  predicate Saturated(v: int, r: int16) {
    && (-0x8000 <= v <= 0x7fff ==> r == v)
    && (v > 0x7fff ==> r == 0x7fff)
    && (v < -0x8000 ==> r == -0x8000)
  }

  predicate AbsCarried(r: AbsReport, t: Target, u: Target) {
    && u.abs.buttons == r.buttons && u.abs.x == r.x && u.abs.y == r.y
    && u.abs.wheel == r.wheel && u.abs.pan == r.pan
    && u.heard.travel.x == t.heard.travel.x && u.heard.travel.y == t.heard.travel.y
    && u.heard.travel.wheel == t.heard.travel.wheel + r.wheel && u.heard.travel.pan == t.heard.travel.pan + r.pan
    && u == t.(abs := u.abs, heard := t.heard.(travel := u.heard.travel))
  }

  predicate RelCarried(r: RelMotion, t: Target, u: Target) {
    && u.rel.buttons == r.buttons && u.rel.wheel == r.wheel && u.rel.pan == r.pan
    && Saturated(r.dx, u.rel.dx) && Saturated(r.dy, u.rel.dy)
    && u.heard.travel.x == t.heard.travel.x + u.rel.dx && u.heard.travel.y == t.heard.travel.y + u.rel.dy
    && u.heard.travel.wheel == t.heard.travel.wheel + r.wheel && u.heard.travel.pan == t.heard.travel.pan + r.pan
    && u == t.(rel := u.rel, heard := t.heard.(travel := u.heard.travel))
  }

  predicate KeysCarried(modifier: uint8, keys: seq<uint8>, t: Target, u: Target) {
    && u.modifier == modifier && u.keys == keys
    && u.heard.typed == t.heard.typed + [KeyReport(modifier, keys)]
    && u == t.(modifier := u.modifier, keys := u.keys, heard := t.heard.(typed := u.heard.typed))
  }

  // A tap is a press and then the idle pad; a state shown already is no news.
  predicate PadCarried(r: PadReport, tap: bool, t: Target, u: Target) {
    && u.pad == (if tap then PAD_IDLE else r)
    && u.heard.pads == t.heard.pads + (if r != t.pad then [r] else [])
                                    + (if tap && r != PAD_IDLE then [PAD_IDLE] else [])
    && u == t.(pad := u.pad, heard := t.heard.(pads := u.heard.pads))
  }

  // Each interface that the device offers shows what the message asked for, field
  // by field, and everything else is as it was.
  predicate Carried(fns: Interfaces, m: Message, t: Target, u: Target) {
    match m
    case MouseAbs(_, r) => if fns.ptr then AbsCarried(r, t, u) else u == t
    case MouseRel(_, r) => if fns.rel then RelCarried(r, t, u) else u == t
    case Key(modifier, keys) => if fns.kbd then KeysCarried(modifier, keys, t, u) else u == t
    case Consumer(usage) => u == if fns.ptr then t.(consumer := usage) else t
    case Pad(r, holdMs) => if fns.pad then PadCarried(r, holdMs > 0, t, u) else u == t
    case ReleaseAll => ReleaseCarried(fns, t, u)
  }

  predicate ReleaseCarried(fns: Interfaces, t: Target, u: Target) {
    && (if fns.kbd then u.modifier == 0 && u.keys == [0, 0, 0, 0, 0, 0]
        else u.modifier == t.modifier && u.keys == t.keys)
    && (if fns.ptr
        then u.consumer == 0 && u.abs.buttons == 0 && u.abs.wheel == 0 && u.abs.pan == 0
        else u.consumer == t.consumer && u.abs == t.abs)
    && (if fns.rel then u.rel == RelReport(0, 0, 0, 0, 0) else u.rel == t.rel)
    && (if fns.pad then u.pad == PadReport(0, 8, 128, 128, 128, 128) else u.pad == t.pad)
    && u.heard.travel == t.heard.travel
    && u.heard.typed == t.heard.typed + (if fns.kbd then [KeyReport(0, [0, 0, 0, 0, 0, 0])] else [])
    && u.heard.pads == t.heard.pads + (if fns.pad && t.pad != PAD_IDLE then [PAD_IDLE] else [])
  }

  // The sum, cut to what a report may scroll.
  predicate ScrollSummed(a: int8, b: int8, r: int8) {
    && (-127 <= a + b <= 127 ==> r == a + b)
    && (a + b > 127 ==> r == 127)
    && (a + b < -127 ==> r == -127)
  }

  // The newest place, or the sum of the motion, and both scrolls.
  predicate BothCarried(a: Message, b: Message, r: Message) {
    || (a.MouseAbs? && b.MouseAbs? && r.MouseAbs?
        && r.abs.buttons == b.abs.buttons && r.abs.x == b.abs.x && r.abs.y == b.abs.y
        && ScrollSummed(a.abs.wheel, b.abs.wheel, r.abs.wheel) && ScrollSummed(a.abs.pan, b.abs.pan, r.abs.pan))
    || (a.MouseRel? && b.MouseRel? && r.MouseRel?
        && r.rel.buttons == b.rel.buttons && r.rel.dx == a.rel.dx + b.rel.dx && r.rel.dy == a.rel.dy + b.rel.dy
        && ScrollSummed(a.rel.wheel, b.rel.wheel, r.rel.wheel) && ScrollSummed(a.rel.pan, b.rel.pan, r.rel.pan))
  }

  // Two moves of one pointer, no button down, and neither to be kept whole.
  predicate MayFold(a: Message, b: Message) {
    || (a.MouseAbs? && b.MouseAbs? && !a.solo && !b.solo && a.abs.buttons == 0 && b.abs.buttons == 0)
    || (a.MouseRel? && b.MouseRel? && !a.solo && !b.solo && a.rel.buttons == 0 && b.rel.buttons == 0)
  }

  /** Two messages fold exactly if both are moves of one pointer with no button down
      and no nudge, and the report they fold into carries what both ask for. */
  lemma FoldCarriesBoth(a: Message, b: Message)
    ensures CanFold(a, b) <==> MayFold(a, b)
    ensures CanFold(a, b) ==> BothCarried(a, b, Fold(a, b)) && !Fold(a, b).solo
  {
  }

  /** So whatever is to be kept whole goes out as it is: a nudge, a held button and
      everything that is no move is alone in its group on every schedule. */
  lemma OnlyIdleMovesShareAReport(g: seq<Message>, i: nat)
    requires IsGroup(g) && i < |g|
    requires match g[i] { case MouseAbs(solo, r) => solo || r.buttons != 0
                          case MouseRel(solo, r) => solo || r.buttons != 0
                          case _ => true }
    ensures g == [g[i]] && FoldAll(g) == g[i]
  {
  }

  /** Whatever the message, the target gets what it asks for. */
  lemma DispatchCarries(p: Port, m: Message)
    ensures Carried(p.fns, m, p.target, Dispatch(p, m).target)
  {
    match m
    case MouseAbs(_, r) =>
    case MouseRel(_, r) =>
    case Key(_, _) =>
    case Consumer(_) =>
    case Pad(r, holdMs) =>
      if p.fns.pad {
        PadGoes(p, r, holdMs > 0);
      }
    case ReleaseAll => ReleaseGoes(p);
  }

  lemma PadGoes(p: Port, r: PadReport, tap: bool)
    requires p.fns.pad
    ensures var q := SendPad(p, r); PadCarried(r, tap, p.target, (if tap then SendPad(q, PAD_IDLE) else q).target)
  {
  }

  lemma ReleaseGoes(p: Port)
    ensures ReleaseCarried(p.fns, p.target, SendReleaseAll(p).target)
  {
  }
}

// The same over whole streams and runs.
module HidTravel {
  import opened HidReports
  import opened HidCoalescing
  import opened HidPort
  import opened HidCarried
  import opened HidQueue

  function SumX(s: seq<Message>): int {
    if s == [] then 0 else SumX(s[..|s| - 1]) + if s[|s| - 1].MouseRel? then s[|s| - 1].rel.dx else 0
  }

  function SumY(s: seq<Message>): int {
    if s == [] then 0 else SumY(s[..|s| - 1]) + if s[|s| - 1].MouseRel? then s[|s| - 1].rel.dy else 0
  }

  // What the messages ask for in all, of the pointers the device offers.
  function Asked(fns: Interfaces, s: seq<Message>): Travel {
    if s == [] then Travel(0, 0, 0, 0)
    else
      var t, m := Asked(fns, s[..|s| - 1]), s[|s| - 1];
      var x, y := if m.MouseRel? && fns.rel then m.rel.dx else 0, if m.MouseRel? && fns.rel then m.rel.dy else 0;
      if (m.MouseRel? && fns.rel) || (m.MouseAbs? && fns.ptr)
      then Travel(t.x + x, t.y + y, t.wheel + Wheel(m), t.pan + Pan(m)) else t
  }

  function Plus(a: Travel, b: Travel): Travel {
    Travel(a.x + b.x, a.y + b.y, a.wheel + b.wheel, a.pan + b.pan)
  }

  predicate MotionFitsReport(g: seq<Message>) {
    -0x8000 <= SumX(g) <= 0x7fff && -0x8000 <= SumY(g) <= 0x7fff
  }

  lemma {:induction false} AskedAppend(fns: Interfaces, a: seq<Message>, b: seq<Message>)
    ensures Asked(fns, a + b) == Plus(Asked(fns, a), Asked(fns, b))
  {
    if b == [] {
      assert a + b == a;
    } else {
      assert (a + b)[..|a + b| - 1] == a + b[..|b| - 1];
      AskedAppend(fns, a, b[..|b| - 1]);
    }
  }

  lemma {:induction false} AskedAxes(fns: Interfaces, s: seq<Message>)
    ensures fns.rel ==> Asked(fns, s).x == SumX(s) && Asked(fns, s).y == SumY(s)
  {
    if s != [] {
      AskedAxes(fns, s[..|s| - 1]);
    }
  }

  // The pending relative report holds the plain sums of its motion.
  lemma {:induction false} FoldedMotion(g: seq<Message>)
    requires IsGroup(g) && g[0].MouseRel?
    ensures FoldAll(g).MouseRel? && FoldAll(g).rel.dx == SumX(g) && FoldAll(g).rel.dy == SumY(g)
  {
    if |g| == 1 {
      assert g[..0] == [];
    } else {
      var init := g[..|g| - 1];
      assert IsGroup(init) by { assert forall i | 0 <= i < |init| :: init[i] == g[i]; }
      FoldedMotion(init);
    }
  }

  // Of a group, as far as its scroll goes.
  lemma {:induction false} AskedScroll(fns: Interfaces, g: seq<Message>)
    requires IsGroup(g) && IsIdle(g[0]) && (if g[0].MouseRel? then fns.rel else fns.ptr)
    ensures Asked(fns, g).wheel == WheelSum(g) && Asked(fns, g).pan == PanSum(g)
    ensures g[0].MouseAbs? ==> Asked(fns, g).x == 0 && Asked(fns, g).y == 0
  {
    if |g| == 1 {
      assert g[..0] == [];
    } else {
      var init := g[..|g| - 1];
      assert IsGroup(init) by { assert forall i | 0 <= i < |init| :: init[i] == g[i]; }
      AskedScroll(fns, init);
    }
  }

  lemma {:induction false} AskedNothing(fns: Interfaces, g: seq<Message>)
    requires forall i | 0 <= i < |g| :: (g[i].MouseRel? ==> !fns.rel) && (g[i].MouseAbs? ==> !fns.ptr)
    ensures Asked(fns, g) == Travel(0, 0, 0, 0)
  {
    if g != [] {
      AskedNothing(fns, g[..|g| - 1]);
    }
  }

  // A group whose report carries all that its messages ask for.
  predicate Carries(g: seq<Message>) {
    MotionFitsReport(g) && PrefixesFit(g)
  }

  lemma AskedOfOne(fns: Interfaces, m: Message)
    ensures Asked(fns, [m]) ==
              if m.MouseRel? && fns.rel then Travel(m.rel.dx, m.rel.dy, m.rel.wheel, m.rel.pan)
              else if m.MouseAbs? && fns.ptr then Travel(0, 0, m.abs.wheel, m.abs.pan)
              else Travel(0, 0, 0, 0)
    ensures m.MouseRel? ==> SumX([m]) == m.rel.dx && SumY([m]) == m.rel.dy
  {
    assert [m][..0] == [];
  }

  /** One report of a group moves the target by what the group's messages ask for. */
  lemma {:induction false} GroupTravels(p: Port, g: seq<Message>)
    requires IsGroup(g) && Carries(g)
    ensures Dispatch(p, FoldAll(g)).target.heard.travel == Plus(p.target.heard.travel, Asked(p.fns, g))
  {
    DispatchCarries(p, FoldAll(g));
    if |g| == 1 {
      AskedOfOne(p.fns, g[0]);
    } else if if g[0].MouseRel? then p.fns.rel else p.fns.ptr {
      FoldAllSums(g);
      AskedScroll(p.fns, g);
      AskedAxes(p.fns, g);
      if g[0].MouseRel? {
        FoldedMotion(g);
      }
    } else {
      AskedNothing(p.fns, g);
    }
  }

  lemma {:induction false} GroupsTravel(p: Port, gs: seq<seq<Message>>)
    requires IsGrouping(gs) && forall i | 0 <= i < |gs| :: Carries(gs[i])
    ensures var q := DispatchAll(p, Emit(gs));
            q.fns == p.fns && q.target.heard.travel == Plus(p.target.heard.travel, Asked(p.fns, Flatten(gs)))
  {
    if gs != [] {
      var n := |gs| - 1;
      GroupsTravel(p, gs[..n]);
      assert Emit(gs)[..n] == Emit(gs[..n]);
      var q := DispatchAll(p, Emit(gs[..n]));
      GroupTravels(q, gs[n]);
      AskedAppend(p.fns, Flatten(gs[..n]), gs[n]);
    }
  }

  /** Over every run: as long as no report's sums leave what it can carry, the
      target has moved and scrolled by exactly what the messages sent asked for. */
  lemma {:induction false} TravelIsWhatWasAsked(fns: Interfaces, steps: seq<Step>)
    ensures var h := Run(Init(fns), steps);
            (forall i | 0 <= i < |h.done| :: Carries(h.done[i])) ==>
              && h.port.target.heard.travel == Asked(fns, Flatten(h.done))
              && (fns.rel ==> h.port.target.heard.travel.x == SumX(Flatten(h.done)))
              && (fns.rel ==> h.port.target.heard.travel.y == SumY(Flatten(h.done)))
  {
    var h := Run(Init(fns), steps);
    PortIsWhatWasSent(fns, steps);
    if forall i | 0 <= i < |h.done| :: Carries(h.done[i]) {
      GroupsTravel(Fresh(fns), h.done);
      AskedAxes(fns, Flatten(h.done));
    }
  }

  // ---- exactly when all motion arrives ----

  // Every block that could go out as one relative report fits in one.
  predicate MotionBlocksFit(s: seq<Message>) {
    forall i, j | 0 <= i < j <= |s| && IsGroup(s[i..j]) :: MotionFitsReport(s[i..j])
  }

  // Callers ask for what one report can carry.
  predicate MotionsFit(s: seq<Message>) {
    forall i | 0 <= i < |s| && s[i].MouseRel? :: -0x8000 <= s[i].rel.dx <= 0x7fff && -0x8000 <= s[i].rel.dy <= 0x7fff
  }

  function TravelSent(fns: Interfaces, gs: seq<seq<Message>>): Travel
    requires IsGrouping(gs)
  {
    DispatchAll(Fresh(fns), Emit(gs)).target.heard.travel
  }

  ghost predicate MotionArrives(fns: Interfaces, s: seq<Message>) {
    forall gs | IsGrouping(gs) && Flatten(gs) == s ::
      TravelSent(fns, gs).x == SumX(s) && TravelSent(fns, gs).y == SumY(s)
  }

  lemma ReportMoves(p: Port, m: Message)
    requires p.fns.rel
    ensures var t, u := p.target.heard.travel, Dispatch(p, m).target.heard.travel;
            && (!m.MouseRel? ==> u.x == t.x && u.y == t.y)
            && (m.MouseRel? ==> u.x == t.x + ClampMotion(m.rel.dx) && u.y == t.y + ClampMotion(m.rel.dy))
  {
    DispatchCarries(p, m);
  }

  // The motion of the messages as they stand, each cut to its report.
  function CutX(s: seq<Message>): int {
    if s == [] then 0 else CutX(s[..|s| - 1]) + if s[|s| - 1].MouseRel? then ClampMotion(s[|s| - 1].rel.dx) else 0
  }

  function CutY(s: seq<Message>): int {
    if s == [] then 0 else CutY(s[..|s| - 1]) + if s[|s| - 1].MouseRel? then ClampMotion(s[|s| - 1].rel.dy) else 0
  }

  lemma {:induction false} SentIsCut(p: Port, s: seq<Message>)
    requires p.fns.rel
    ensures var q := DispatchAll(p, s);
            && q.fns == p.fns
            && q.target.heard.travel.x == p.target.heard.travel.x + CutX(s)
            && q.target.heard.travel.y == p.target.heard.travel.y + CutY(s)
  {
    if s != [] {
      SentIsCut(p, s[..|s| - 1]);
      ReportMoves(DispatchAll(p, s[..|s| - 1]), s[|s| - 1]);
    }
  }

  lemma {:induction false} CutAppend(a: seq<Message>, b: seq<Message>)
    ensures CutX(a + b) == CutX(a) + CutX(b) && CutY(a + b) == CutY(a) + CutY(b)
    ensures SumX(a + b) == SumX(a) + SumX(b) && SumY(a + b) == SumY(a) + SumY(b)
  {
    if b == [] {
      assert a + b == a;
    } else {
      assert (a + b)[..|a + b| - 1] == a + b[..|b| - 1];
      CutAppend(a, b[..|b| - 1]);
    }
  }

  lemma {:induction false} NothingCut(s: seq<Message>)
    requires MotionsFit(s)
    ensures CutX(s) == SumX(s) && CutY(s) == SumY(s)
  {
    if s != [] {
      assert MotionsFit(s[..|s| - 1]) by { assert forall i | 0 <= i < |s| - 1 :: s[..|s| - 1][i] == s[i]; }
      NothingCut(s[..|s| - 1]);
    }
  }

  lemma CutOfOne(m: Message)
    ensures CutX([m]) == (if m.MouseRel? then ClampMotion(m.rel.dx) else 0)
    ensures CutY([m]) == (if m.MouseRel? then ClampMotion(m.rel.dy) else 0)
  {
    assert [m][..0] == [];
    assert CutX([]) == 0 && CutY([]) == 0;
  }

  lemma {:induction false} GroupCut(g: seq<Message>)
    requires IsGroup(g)
    ensures MotionFitsReport(g) ==> CutX([FoldAll(g)]) == SumX(g) && CutY([FoldAll(g)]) == SumY(g)
    ensures g[0].MouseRel? && CutX([FoldAll(g)]) == SumX(g) && CutY([FoldAll(g)]) == SumY(g) ==> MotionFitsReport(g)
    ensures !g[0].MouseRel? ==> MotionFitsReport(g)
  {
    CutOfOne(FoldAll(g));
    if g[0].MouseRel? {
      FoldedMotion(g);
    } else {
      NoMotion(g);
    }
  }

  lemma {:induction false} NoMotion(g: seq<Message>)
    requires forall i | 0 <= i < |g| :: !g[i].MouseRel?
    ensures SumX(g) == 0 && SumY(g) == 0
  {
    if g != [] {
      NoMotion(g[..|g| - 1]);
    }
  }

  lemma {:induction false} GroupsCut(gs: seq<seq<Message>>)
    requires IsGrouping(gs) && forall i | 0 <= i < |gs| :: MotionFitsReport(gs[i])
    ensures CutX(Emit(gs)) == SumX(Flatten(gs)) && CutY(Emit(gs)) == SumY(Flatten(gs))
  {
    if gs != [] {
      var n := |gs| - 1;
      GroupsCut(gs[..n]);
      GroupCut(gs[n]);
      CutAppend(Emit(gs[..n]), [FoldAll(gs[n])]);
      CutAppend(Flatten(gs[..n]), gs[n]);
    }
  }

  /** Of what callers may ask for, all motion reaches the target on every schedule
      if and only if no block of messages that can go out as one relative report
      adds up to more than a report can carry, on either axis. */
  lemma {:induction false} MotionArrivesExactly(fns: Interfaces, s: seq<Message>)
    requires fns.rel && MotionsFit(s)
    ensures MotionArrives(fns, s) <==> MotionBlocksFit(s)
  {
    if MotionBlocksFit(s) {
      forall gs | IsGrouping(gs) && Flatten(gs) == s
        ensures TravelSent(fns, gs).x == SumX(s) && TravelSent(fns, gs).y == SumY(s)
      {
        forall k | 0 <= k < |gs| ensures MotionFitsReport(gs[k]) {
          var at := FlattenSplit(gs, k);
          assert s[at..at + |gs[k]|] == gs[k];
        }
        GroupsCut(gs);
        SentIsCut(Fresh(fns), Emit(gs));
      }
    } else {
      var i, j :| 0 <= i < j <= |s| && IsGroup(s[i..j]) && !MotionFitsReport(s[i..j]);
      var gs := CuttingSchedule(fns, s, i, j);
    }
  }

  lemma {:induction false} CuttingSchedule(fns: Interfaces, s: seq<Message>, i: nat, j: nat)
    returns (gs: seq<seq<Message>>)
    requires fns.rel && MotionsFit(s)
    requires i < j <= |s| && IsGroup(s[i..j]) && !MotionFitsReport(s[i..j])
    ensures IsGrouping(gs) && Flatten(gs) == s
    ensures TravelSent(fns, gs).x != SumX(s) || TravelSent(fns, gs).y != SumY(s)
  {
    var a, g, b := s[..i], s[i..j], s[j..];
    assert s == a + g + b;
    gs := FoldOnly(a, g, b);
    SentIsCut(Fresh(fns), Emit(gs));
    GroupCut(g);
    CutAppend(a, [FoldAll(g)]);
    CutAppend(a + [FoldAll(g)], b);
    CutAppend(a, g);
    CutAppend(a + g, b);
    assert MotionsFit(a) && MotionsFit(b);
    NothingCut(a);
    NothingCut(b);
  }

  // ---- keys and pad ----

  function KeysAsked(s: seq<Message>): seq<KeyReport> {
    if s == [] then []
    else
      KeysAsked(s[..|s| - 1]) +
      match s[|s| - 1]
      case Key(modifier, keys) => [KeyReport(modifier, keys)]
      case ReleaseAll => [KeyReport(0, [0, 0, 0, 0, 0, 0])]
      case _ => []
  }

  // The states the pad goes through, a tap and back included.
  function PadAsked(s: seq<Message>): seq<PadReport> {
    if s == [] then []
    else
      PadAsked(s[..|s| - 1]) +
      match s[|s| - 1]
      case Pad(r, holdMs) => if holdMs > 0 then [r, PAD_IDLE] else [r]
      case ReleaseAll => [PAD_IDLE]
      case _ => []
  }

  // Repeats left out, beginning with the idle pad.
  function Changes(s: seq<PadReport>): seq<PadReport> {
    if s == [] then []
    else if s[|s| - 1] == LastOf(s[..|s| - 1]) then Changes(s[..|s| - 1])
    else Changes(s[..|s| - 1]) + [s[|s| - 1]]
  }

  function LastOf(s: seq<PadReport>): PadReport {
    if s == [] then PAD_IDLE else s[|s| - 1]
  }

  lemma ChangesOfMore(s: seq<PadReport>, r: PadReport)
    ensures Changes(s + [r]) == Changes(s) + (if r == LastOf(s) then [] else [r]) && LastOf(s + [r]) == r
  {
    assert (s + [r])[..|s|] == s;
  }

  lemma {:induction false} MessageTyped(p: Port, m: Message, asked: seq<PadReport>)
    requires p.fns.pad ==> p.target.pad == LastOf(asked) && p.target.heard.pads == Changes(asked)
    ensures var q, now := Dispatch(p, m), asked + PadAsked([m]);
            && q.fns == p.fns
            && (p.fns.kbd ==> q.target.heard.typed == p.target.heard.typed + KeysAsked([m]))
            && (p.fns.pad ==> q.target.pad == LastOf(now) && q.target.heard.pads == Changes(now))
  {
    DispatchCarries(p, m);
    AskedByOne(m);
    match m
    case Pad(r, holdMs) => TapAsked(asked, r, holdMs > 0);
    case ReleaseAll => ChangesOfMore(asked, PAD_IDLE);
    case _ => assert asked + [] == asked;
  }

  lemma AskedByOne(m: Message)
    ensures m.Pad? ==> PadAsked([m]) == if m.holdMs > 0 then [m.pad, PAD_IDLE] else [m.pad]
    ensures m.ReleaseAll? ==> PadAsked([m]) == [PAD_IDLE] && KeysAsked([m]) == [KeyReport(0, [0, 0, 0, 0, 0, 0])]
    ensures m.Key? ==> KeysAsked([m]) == [KeyReport(m.modifier, m.keys)]
    ensures !m.Pad? && !m.ReleaseAll? ==> PadAsked([m]) == []
    ensures !m.Key? && !m.ReleaseAll? ==> KeysAsked([m]) == []
  {
    assert [m][..0] == [];
  }

  lemma AskedByMore(s: seq<Message>)
    requires s != []
    ensures KeysAsked(s) == KeysAsked(s[..|s| - 1]) + KeysAsked([s[|s| - 1]])
    ensures PadAsked(s) == PadAsked(s[..|s| - 1]) + PadAsked([s[|s| - 1]])
  {
    AskedByOne(s[|s| - 1]);
  }

  lemma TapAsked(asked: seq<PadReport>, r: PadReport, tap: bool)
    ensures var now := asked + if tap then [r, PAD_IDLE] else [r];
            && LastOf(now) == (if tap then PAD_IDLE else r)
            && Changes(now) == Changes(asked) + (if r != LastOf(asked) then [r] else [])
                                             + (if tap && r != PAD_IDLE then [PAD_IDLE] else [])
  {
    ChangesOfMore(asked, r);
    if tap {
      ChangesOfMore(asked + [r], PAD_IDLE);
      assert asked + [r, PAD_IDLE] == asked + [r] + [PAD_IDLE];
    }
  }

  lemma {:induction false} AllTyped(fns: Interfaces, s: seq<Message>)
    ensures var q := DispatchAll(Fresh(fns), s);
            && q.fns == fns
            && (fns.kbd ==> q.target.heard.typed == KeysAsked(s))
            && (fns.pad ==> q.target.pad == LastOf(PadAsked(s)) && q.target.heard.pads == Changes(PadAsked(s)))
  {
    if s != [] {
      var init, m := s[..|s| - 1], s[|s| - 1];
      AllTyped(fns, init);
      MessageTyped(DispatchAll(Fresh(fns), init), m, PadAsked(init));
      AskedByMore(s);
    }
  }

  // Folding touches neither keys nor pad.
  lemma {:induction false} FoldingTypesNothing(gs: seq<seq<Message>>)
    requires IsGrouping(gs)
    ensures KeysAsked(Emit(gs)) == KeysAsked(Flatten(gs)) && PadAsked(Emit(gs)) == PadAsked(Flatten(gs))
  {
    if gs != [] {
      var n := |gs| - 1;
      FoldingTypesNothing(gs[..n]);
      assert Emit(gs)[..n] == Emit(gs[..n]);
      GroupTypesNothing(Flatten(gs[..n]), gs[n]);
    }
  }

  lemma {:induction false} GroupTypesNothing(a: seq<Message>, g: seq<Message>)
    requires IsGroup(g)
    ensures KeysAsked(a + g) == KeysAsked(a + [FoldAll(g)]) && PadAsked(a + g) == PadAsked(a + [FoldAll(g)])
  {
    assert (a + [FoldAll(g)])[..|a|] == a;
    if |g| == 1 {
      assert g == [g[0]];
    } else {
      MotionTypesNothing(a, g);
    }
  }

  lemma {:induction false} MotionTypesNothing(a: seq<Message>, g: seq<Message>)
    requires forall i | 0 <= i < |g| :: IsMouse(g[i])
    ensures KeysAsked(a + g) == KeysAsked(a) && PadAsked(a + g) == PadAsked(a)
  {
    if g == [] {
      assert a + g == a;
    } else {
      assert (a + g)[..|a + g| - 1] == a + g[..|g| - 1];
      MotionTypesNothing(a, g[..|g| - 1]);
    }
  }

  /** Over every run: the target got every key report and went through every state
      of the pad that the messages sent ask for, in order, and no other. */
  lemma {:induction false} KeysAndPadArrive(fns: Interfaces, steps: seq<Step>)
    ensures var h := Run(Init(fns), steps);
            && (fns.kbd ==> h.port.target.heard.typed == KeysAsked(Flatten(h.done)))
            && (fns.pad ==> h.port.target.heard.pads == Changes(PadAsked(Flatten(h.done))))
  {
    var h := Run(Init(fns), steps);
    PortIsWhatWasSent(fns, steps);
    AllTyped(fns, Emit(h.done));
    FoldingTypesNothing(h.done);
  }
}
