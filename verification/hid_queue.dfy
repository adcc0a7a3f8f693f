// The HID report queue, its producers and its worker, as steps that may
// interleave in any order. Models dispatch, send_rel, send_release_all,
// hid_worker, enqueue and usb_hid_release_all in components/kvm_hid/usb_hid.c.

// What the reports leave on the target.
module HidPort {
  import opened HidReports

  datatype RelReport = RelReport(buttons: uint8, dx: int16, dy: int16, wheel: int8, pan: int8)

  // Which interfaces the device offers; a report for another one goes nowhere.
  datatype Interfaces = Interfaces(kbd: bool, ptr: bool, rel: bool, pad: bool)

  // What the reports added up to: relative motion, and scroll on either pointer.
  datatype Travel = Travel(x: int, y: int, wheel: int, pan: int)

  datatype KeyReport = KeyReport(modifier: uint8, keys: seq<uint8>)

  // Every key report, and every state of the pad with repeats left out.
  datatype Heard = Heard(travel: Travel, typed: seq<KeyReport>, pads: seq<PadReport>)

  // The last report the target got on each interface, and what it heard in all.
  datatype Target = Target(modifier: uint8, keys: seq<uint8>, consumer: uint16, pad: PadReport,
                           rel: RelReport, abs: AbsReport, heard: Heard)

  datatype Port = Port(fns: Interfaces, target: Target, lastX: uint16, lastY: uint16, lastPad: PadReport)

  const NO_KEYS: seq<uint8> := [0, 0, 0, 0, 0, 0]
  const PAD_IDLE := PadReport(0, 8, 128, 128, 128, 128)
  const REL_IDLE := RelReport(0, 0, 0, 0, 0)

  const NOTHING := Heard(Travel(0, 0, 0, 0), [], [])

  function Fresh(fns: Interfaces): Port {
    Port(fns, Target(0, NO_KEYS, 0, PAD_IDLE, REL_IDLE, AbsReport(0, 0, 0, 0, 0), NOTHING), 0, 0, PAD_IDLE)
  }

  // ---- what a host makes of a report ----

  function Moved(h: Heard, x: int, y: int, wheel: int, pan: int): Heard {
    h.(travel := Travel(h.travel.x + x, h.travel.y + y, h.travel.wheel + wheel, h.travel.pan + pan))
  }

  function HearAbs(t: Target, r: AbsReport): Target {
    t.(abs := r, heard := Moved(t.heard, 0, 0, r.wheel, r.pan))
  }

  function HearRel(t: Target, r: RelReport): Target {
    t.(rel := r, heard := Moved(t.heard, r.dx, r.dy, r.wheel, r.pan))
  }

  function HearKeys(t: Target, modifier: uint8, keys: seq<uint8>): Target {
    t.(modifier := modifier, keys := keys, heard := t.heard.(typed := t.heard.typed + [KeyReport(modifier, keys)]))
  }

  function HearPad(t: Target, r: PadReport): Target {
    if r == t.pad then t else t.(pad := r, heard := t.heard.(pads := t.heard.pads + [r]))
  }

  // ---- what the device sends ----

  function ClampMotion(v: int): (r: int16)
    ensures (r == v) == (-0x8000 <= v < 0x8000)
    ensures v > 0x7fff ==> r == 0x7fff
    ensures v < -0x8000 ==> r == -0x8000
  {
    if v > 0x7fff then 0x7fff else if v < -0x8000 then -0x8000 else v
  }

  function SendAbs(p: Port, r: AbsReport): Port {
    var sent := p.(lastX := r.x, lastY := r.y);
    if p.fns.ptr then sent.(target := HearAbs(p.target, r)) else sent
  }

  function SendRel(p: Port, r: RelMotion): Port {
    if p.fns.rel
    then p.(target := HearRel(p.target, RelReport(r.buttons, ClampMotion(r.dx), ClampMotion(r.dy), r.wheel, r.pan)))
    else p
  }

  function SendKeyboard(p: Port, modifier: uint8, keys: seq<uint8>): Port {
    if p.fns.kbd then p.(target := HearKeys(p.target, modifier, keys)) else p
  }

  function SendConsumer(p: Port, usage: uint16): Port {
    if p.fns.ptr then p.(target := p.target.(consumer := usage)) else p
  }

  function SendPad(p: Port, r: PadReport): Port {
    var sent := p.(lastPad := r);
    if p.fns.pad then sent.(target := HearPad(p.target, r)) else sent
  }

  function SendReleaseAll(p: Port): Port {
    var p1 := SendKeyboard(p, 0, NO_KEYS);
    var p2 := SendPad(p1, PAD_IDLE);
    var p3 := SendConsumer(p2, 0);
    var p4 := SendRel(p3, RelMotion(0, 0, 0, 0, 0));
    SendAbs(p4, AbsReport(0, p4.lastX, p4.lastY, 0, 0))
  }

  function Dispatch(p: Port, m: Message): Port {
    match m
    case MouseAbs(_, r) => SendAbs(p, r)
    case MouseRel(_, r) => SendRel(p, r)
    case Key(modifier, keys) => SendKeyboard(p, modifier, keys)
    case Consumer(usage) => SendConsumer(p, usage)
    case Pad(r, holdMs) => if holdMs > 0 then SendPad(SendPad(p, r), PAD_IDLE) else SendPad(p, r)
    case ReleaseAll => SendReleaseAll(p)
  }

  function DispatchAll(p: Port, s: seq<Message>): Port {
    if s == [] then p else Dispatch(DispatchAll(p, s[..|s| - 1]), s[|s| - 1])
  }

  // An interface that is not there never showed the target anything, and the
  // ones that are show what the device remembers sending.
  predicate Consistent(p: Port) {
    && (!p.fns.kbd ==> p.target.modifier == 0 && p.target.keys == NO_KEYS)
    && (!p.fns.ptr ==> p.target.consumer == 0 && p.target.abs.buttons == 0)
    && (!p.fns.rel ==> p.target.rel == REL_IDLE)
    && (!p.fns.pad ==> p.target.pad == PAD_IDLE)
    && (p.fns.ptr ==> p.target.abs.x == p.lastX && p.target.abs.y == p.lastY)
    && (p.fns.pad ==> p.target.pad == p.lastPad)
  }

  // Nothing is down on any interface of the target.
  predicate NothingHeld(t: Target) {
    && t.modifier == 0 && t.keys == NO_KEYS && t.consumer == 0
    && t.pad == PAD_IDLE && t.rel == REL_IDLE && t.abs.buttons == 0
  }

  lemma DispatchKeepsConsistent(p: Port, m: Message)
    requires Consistent(p)
    ensures Consistent(Dispatch(p, m)) && Dispatch(p, m).fns == p.fns
  {
  }

  /** Releasing everything leaves nothing held, and the cursor where it was. */
  lemma ReleaseHoldsNothing(p: Port)
    requires Consistent(p)
    ensures var q := Dispatch(p, ReleaseAll);
            && NothingHeld(q.target)
            && (p.fns.ptr ==> q.target.abs == AbsReport(0, p.target.abs.x, p.target.abs.y, 0, 0))
            && q.lastX == p.lastX && q.lastY == p.lastY
  {
  }

  // What stays on the target once motion is over: everything but the deltas.
  datatype Rest = Rest(modifier: uint8, keys: seq<uint8>, consumer: uint16, pad: PadReport,
                       relButtons: uint8, absButtons: uint8, x: uint16, y: uint16,
                       lastX: uint16, lastY: uint16, lastPad: PadReport, fns: Interfaces)

  function AtRest(p: Port): Rest {
    Rest(p.target.modifier, p.target.keys, p.target.consumer, p.target.pad,
         p.target.rel.buttons, p.target.abs.buttons, p.target.abs.x, p.target.abs.y,
         p.lastX, p.lastY, p.lastPad, p.fns)
  }

  lemma {:induction false} DispatchAllAppend(p: Port, a: seq<Message>, b: seq<Message>)
    ensures DispatchAll(p, a + b) == DispatchAll(DispatchAll(p, a), b)
  {
    if b == [] {
      assert a + b == a;
    } else {
      assert (a + b)[..|a + b| - 1] == a + b[..|b| - 1];
      DispatchAllAppend(p, a, b[..|b| - 1]);
    }
  }

  lemma {:induction false} GroupAtRest(p: Port, g: seq<Message>)
    requires IsGroup(g)
    ensures AtRest(DispatchAll(p, g)) == AtRest(Dispatch(p, FoldAll(g)))
    ensures |g| > 1 ==>
              DispatchAll(p, g).target.(rel := p.target.rel, abs := p.target.abs, heard := p.target.heard) == p.target
  {
    if |g| == 1 {
      assert g[..0] == [];
    } else {
      var init := g[..|g| - 1];
      assert IsGroup(init) by { assert forall i | 0 <= i < |init| :: init[i] == g[i]; }
      GroupAtRest(p, init);
    }
  }

  lemma DispatchKeepsRest(p: Port, q: Port, m: Message)
    requires AtRest(p) == AtRest(q)
    ensures AtRest(Dispatch(p, m)) == AtRest(Dispatch(q, m))
  {
    match m
    case Pad(r, holdMs) =>
      PadKeepsRest(p, q, r);
      PadKeepsRest(SendPad(p, r), SendPad(q, r), PAD_IDLE);
    case ReleaseAll => ReleaseKeepsRest(p, q);
    case _ =>
  }

  lemma PadKeepsRest(p: Port, q: Port, r: PadReport)
    requires AtRest(p) == AtRest(q)
    ensures AtRest(SendPad(p, r)) == AtRest(SendPad(q, r))
  {
  }

  lemma ReleaseKeepsRest(p: Port, q: Port)
    requires AtRest(p) == AtRest(q)
    ensures AtRest(SendReleaseAll(p)) == AtRest(SendReleaseAll(q))
  {
  }

  lemma {:induction false} DispatchAllKeepsRest(p: Port, q: Port, s: seq<Message>)
    requires AtRest(p) == AtRest(q)
    ensures AtRest(DispatchAll(p, s)) == AtRest(DispatchAll(q, s))
  {
    if s != [] {
      DispatchAllKeepsRest(p, q, s[..|s| - 1]);
      DispatchKeepsRest(DispatchAll(p, s[..|s| - 1]), DispatchAll(q, s[..|s| - 1]), s[|s| - 1]);
    }
  }

  /** The folded reports leave the target as sending every message one by one
      would: same keys, buttons, pad and cursor position. */
  lemma {:induction false} CoalescingKeepsTarget(p: Port, gs: seq<seq<Message>>)
    requires IsGrouping(gs)
    ensures AtRest(DispatchAll(p, Emit(gs))) == AtRest(DispatchAll(p, Flatten(gs)))
  {
    if gs != [] {
      var n := |gs| - 1;
      CoalescingKeepsTarget(p, gs[..n]);
      var q, r := DispatchAll(p, Emit(gs[..n])), DispatchAll(p, Flatten(gs[..n]));
      assert Emit(gs)[..n] == Emit(gs[..n]);
      DispatchAllAppend(p, Flatten(gs[..n]), gs[n]);
      GroupAtRest(r, gs[n]);
      DispatchKeepsRest(q, r, FoldAll(gs[n]));
    }
  }
}

module HidQueue {
  import opened Options
  import opened HidReports
  import opened HidCoalescing
  import opened HidPort

  const DEPTH := 192

  // What has happened so far, for the claims.
  datatype Story = Story(
    asked: bool,           // a release was ever queued
    newer: nat,            // messages queued after the last release
    lost: bool,            // that release met an unplugged target
    eaten: bool,           // that release was received in place of a message folded before
    taken: seq<Message>,   // messages received for a plugged target
    straight: bool)        // every second look received what the first one saw

  // The state. done holds, in order, the groups of messages that went out as one
  // report each, and pending the one being built. peeked is folded into pending
  // and still to be received; swept says that the queue was reset since.
  datatype Hid = Hid(
    queue: seq<Message>,
    pending: seq<Message>,
    peeked: Option<Message>,
    swept: bool,
    done: seq<seq<Message>>,
    port: Port,
    midRelease: nat,       // callers that found the queue full and have not sent yet
    story: Story)

  datatype Step =
    | Enqueue(m: Message)
    | ReleaseTry
    | ReleaseReset
    | ReleaseSend
    | Receive(mounted: bool)
    | PeekFold
    | TakeNext
    | Send
    | RepeatPad

  // Done by callers, on any task.
  predicate Produces(step: Step) {
    step.Enqueue? || step.ReleaseTry? || step.ReleaseReset? || step.ReleaseSend?
  }

  function Init(fns: Interfaces): Hid {
    Hid([], [], None, false, [], Fresh(fns), 0, Story(false, 0, false, false, [], true))
  }

  function QueueRelease(h: Hid): Hid {
    h.(queue := h.queue + [ReleaseAll],
       story := h.story.(asked := true, newer := 0, lost := false, eaten := false))
  }

  // The release queued last is the next message to be received.
  predicate ReleaseIsNext(h: Hid) {
    h.story.asked && h.story.newer + 1 == |h.queue|
  }

  function Deliver(h: Hid, g: seq<Message>): Hid
    requires IsGroup(g)
  {
    h.(done := h.done + [g], port := Dispatch(h.port, FoldAll(g)))
  }

  predicate CanFoldNext(h: Hid) {
    && h.pending != [] && IsGroup(h.pending) && h.peeked == None
    && h.queue != [] && CanFold(FoldAll(h.pending), h.queue[0])
  }

  function NextReceive(h: Hid, mounted: bool): Hid {
    if h.pending != [] || h.queue == [] then h
    else
      var m, rest := h.queue[0], h.(queue := h.queue[1..]);
      if !mounted then rest.(story := h.story.(lost := h.story.lost || ReleaseIsNext(h)))
      else
        var took := rest.(story := h.story.(taken := h.story.taken + [m]));
        if IsMouse(m) then took.(pending := [m]) else Deliver(took, [m])
  }

  // The first look: the head is folded in and stays where it is.
  function NextPeek(h: Hid): Hid {
    if CanFoldNext(h)
    then h.(pending := h.pending + [h.queue[0]], peeked := Some(h.queue[0]), swept := false)
    else h
  }

  // The second look takes whatever is the head by then.
  function NextTake(h: Hid): Hid {
    if h.peeked == None then h
    else if h.queue == [] then h.(peeked := None, story := h.story.(straight := false))
    else
      h.(peeked := None, queue := h.queue[1..],
         story := h.story.(eaten := h.story.eaten || ReleaseIsNext(h),
                           taken := h.story.taken + [h.queue[0]],
                           straight := h.story.straight && Some(h.queue[0]) == h.peeked))
  }

  function NextSend(h: Hid): Hid {
    if h.pending != [] && IsGroup(h.pending) && h.peeked == None then Deliver(h, h.pending).(pending := []) else h
  }

  // A step that is not possible leaves the state as it is.
  function Next(h: Hid, step: Step): Hid {
    match step
    case Enqueue(m) =>
      if |h.queue| < DEPTH
      then h.(queue := h.queue + [m], story := h.story.(newer := h.story.newer + 1)) else h
    case ReleaseTry =>
      if |h.queue| < DEPTH then QueueRelease(h) else h.(midRelease := h.midRelease + 1)
    case ReleaseReset =>
      if h.midRelease > 0 then h.(queue := [], swept := true) else h
    case ReleaseSend =>
      if h.midRelease == 0 then h
      else if |h.queue| < DEPTH then QueueRelease(h).(midRelease := h.midRelease - 1)
      else h.(midRelease := h.midRelease - 1)
    case Receive(mounted) => NextReceive(h, mounted)
    case PeekFold => NextPeek(h)
    case TakeNext => NextTake(h)
    case Send => NextSend(h)
    case RepeatPad =>
      if h.pending == [] && h.queue == [] then h.(port := SendPad(h.port, h.port.lastPad)) else h
  }

  function Run(h: Hid, steps: seq<Step>): Hid
    decreases |steps|
  {
    if steps == [] then h else Next(Run(h, steps[..|steps| - 1]), steps[|steps| - 1])
  }

  lemma {:induction false} RunAppend(h: Hid, a: seq<Step>, b: seq<Step>)
    ensures Run(h, a + b) == Run(Run(h, a), b)
  {
    if b == [] {
      assert a + b == a;
    } else {
      assert (a + b)[..|a + b| - 1] == a + b[..|b| - 1];
      RunAppend(h, a, b[..|b| - 1]);
    }
  }

  lemma RunOne(h: Hid, step: Step)
    ensures Run(h, [step]) == Next(h, step)
  {
    assert [step][..0] == [];
  }

  lemma RunTwo(h: Hid, a: Step, b: Step)
    ensures Run(h, [a, b]) == Next(Next(h, a), b)
  {
    assert [a, b][..1] == [a];
    RunOne(h, a);
  }

  lemma RunThree(h: Hid, a: Step, b: Step, c: Step)
    ensures Run(h, [a, b, c]) == Next(Next(Next(h, a), b), c)
  {
    assert [a, b, c][..2] == [a, b];
    RunTwo(h, a, b);
  }

  // ---- what every step keeps ----

  predicate Valid(h: Hid) {
    && |h.queue| <= DEPTH
    && IsGrouping(h.done)
    && (h.pending != [] ==> IsGroup(h.pending) && IsMouse(h.pending[0]))
    && (h.peeked != None ==> h.pending != [] && h.peeked == Some(h.pending[|h.pending| - 1]))
    && (h.peeked != None && !h.swept ==> h.queue != [] && Some(h.queue[0]) == h.peeked && IsMouse(h.queue[0]))
    && Consistent(h.port)
    && ReleaseStands(h)
  }

  // The last thing sent was a release by itself.
  predicate Released(h: Hid) {
    h.done != [] && h.done[|h.done| - 1] == [ReleaseAll]
  }

  // The last release is where newer says, in the queue; once it has left the
  // queue with nothing newer behind it, it was carried out or eaten.
  predicate ReleaseStands(h: Hid) {
    && (h.story.asked && h.story.newer < |h.queue| ==> h.queue[|h.queue| - 1 - h.story.newer] == ReleaseAll)
    && (h.story.asked && h.story.eaten && h.story.newer == 0 ==>
          h.queue == [] && (h.pending != [] || (h.done != [] && !Released(h))))
    && (h.story.asked && h.story.newer == 0 && h.queue == [] && h.midRelease == 0 && !h.story.lost && !h.story.eaten
        ==> h.pending == [] && Released(h) && NothingHeld(h.port.target))
  }

  lemma ReceiveKeepsValid(h: Hid, mounted: bool)
    requires Valid(h)
    ensures Valid(NextReceive(h, mounted))
    ensures NextReceive(h, mounted).port.fns == h.port.fns
  {
    if h.pending == [] && h.queue != [] {
      DispatchKeepsConsistent(h.port, h.queue[0]);
      if h.queue[0] == ReleaseAll {
        ReleaseHoldsNothing(h.port);
      }
    }
  }

  lemma PeekKeepsValid(h: Hid)
    requires Valid(h)
    ensures Valid(NextPeek(h))
  {
    if CanFoldNext(h) {
      FoldAllSnoc(h.pending, h.queue[0]);
      assert NextPeek(h).pending[0] == h.pending[0];
    }
  }

  lemma TakeKeepsValid(h: Hid)
    requires Valid(h)
    ensures Valid(NextTake(h))
  {
  }

  lemma SendKeepsValid(h: Hid)
    requires Valid(h)
    ensures Valid(NextSend(h))
    ensures NextSend(h).port.fns == h.port.fns
  {
    if h.pending != [] && h.peeked == None {
      DispatchKeepsConsistent(h.port, FoldAll(h.pending));
      assert h.pending != [ReleaseAll];
    }
  }

  lemma RepeatPadIsSilent(h: Hid)
    requires Consistent(h.port)
    ensures Next(h, RepeatPad) == h
  {
  }

  lemma NextKeepsValid(h: Hid, step: Step)
    requires Valid(h)
    ensures Valid(Next(h, step))
    ensures Next(h, step).port.fns == h.port.fns
  {
    match step
    case Receive(mounted) => ReceiveKeepsValid(h, mounted);
    case PeekFold => PeekKeepsValid(h);
    case TakeNext => TakeKeepsValid(h);
    case Send => SendKeepsValid(h);
    case RepeatPad => RepeatPadIsSilent(h);
    case _ => ProducersKeepValid(h, step);
  }

  lemma ProducersKeepValid(h: Hid, step: Step)
    requires Valid(h) && Produces(step)
    ensures Valid(Next(h, step)) && Next(h, step).port == h.port
  {
  }

  lemma {:induction false} RunKeepsValid(h: Hid, steps: seq<Step>)
    requires Valid(h)
    ensures Valid(Run(h, steps))
  {
    if steps != [] {
      RunKeepsValid(h, steps[..|steps| - 1]);
      NextKeepsValid(Run(h, steps[..|steps| - 1]), steps[|steps| - 1]);
    }
  }

  // ---- when a release is carried out ----

  // A release was queued, nothing since, and everybody has finished.
  predicate AtRestAfterRelease(h: Hid) {
    && h.story.asked && h.story.newer == 0 && h.midRelease == 0
    && h.queue == [] && h.pending == []
  }

  // The queue is reset between a peek that folded and its receive.
  predicate ResetsInBetween(h: Hid, step: Step) {
    step.ReleaseReset? && h.midRelease > 0 && h.peeked != None
  }

  // The receive that follows finds the last release at the head.
  predicate EatsRelease(h: Hid, step: Step) {
    step.TakeNext? && h.peeked != None && h.swept && ReleaseIsNext(h)
  }

  /** A release is eaten exactly by such a receive: there was a reset since the
      peek, and it left the release at the head. */
  lemma EatenExactly(h: Hid, step: Step)
    requires Valid(h) && !h.story.eaten
    ensures Next(h, step).story.eaten <==> EatsRelease(h, step)
  {
  }

  predicate QueuesRelease(h: Hid, step: Step) {
    |h.queue| < DEPTH && (step.ReleaseTry? || (step.ReleaseSend? && h.midRelease > 0))
  }

  // Since the last release was queued, such a receive.
  predicate LastIsEaten(fns: Interfaces, steps: seq<Step>) {
    steps != [] &&
    var init := steps[..|steps| - 1];
    var h, step := Run(Init(fns), init), steps[|steps| - 1];
    !QueuesRelease(h, step) && (LastIsEaten(fns, init) || EatsRelease(h, step))
  }

  lemma {:induction false} StoryTellsEaten(fns: Interfaces, steps: seq<Step>)
    ensures Run(Init(fns), steps).story.eaten <==> LastIsEaten(fns, steps)
  {
    if steps != [] {
      var init := steps[..|steps| - 1];
      StoryTellsEaten(fns, init);
      RunKeepsValid(Init(fns), init);
      StepTellsEaten(Run(Init(fns), init), steps[|steps| - 1]);
    }
  }

  lemma StepTellsEaten(h: Hid, step: Step)
    requires Valid(h)
    ensures Next(h, step).story.eaten <==> !QueuesRelease(h, step) && (h.story.eaten || EatsRelease(h, step))
  {
    if !h.story.eaten {
      EatenExactly(h, step);
    }
  }

  /** For every history: once a release is queued, nothing newer follows it and
      the queue drains to a plugged target, the release was carried out if and
      only if no receive of the worker found it at the head, put there by a reset
      between the peek that folded and that receive. Carried out, it leaves
      nothing held and the cursor where it was last put. */
  lemma {:induction false} ReleaseIsCarriedOutExactly(fns: Interfaces, steps: seq<Step>)
    ensures var h := Run(Init(fns), steps);
            AtRestAfterRelease(h) && !h.story.lost ==>
              && (Released(h) <==> !LastIsEaten(fns, steps))
              && (Released(h) ==>
                    && NothingHeld(h.port.target)
                    && (h.port.fns.ptr ==> h.port.target.abs.x == h.port.lastX && h.port.target.abs.y == h.port.lastY))
  {
    RunKeepsValid(Init(fns), steps);
    StoryTellsEaten(fns, steps);
  }

  function ResetsIn(fns: Interfaces, steps: seq<Step>): nat {
    if steps == [] then 0
    else
      var init := steps[..|steps| - 1];
      ResetsIn(fns, init) + if ResetsInBetween(Run(Init(fns), init), steps[|steps| - 1]) then 1 else 0
  }

  // What follows from there being no such reset at all.
  lemma {:induction false} NoResetNoHarm(fns: Interfaces, steps: seq<Step>)
    requires ResetsIn(fns, steps) == 0
    ensures Unharmed(Run(Init(fns), steps))
  {
    if steps != [] {
      var init := steps[..|steps| - 1];
      NoResetNoHarm(fns, init);
      RunKeepsValid(Init(fns), init);
      StepDoesNoHarm(Run(Init(fns), init), steps[|steps| - 1]);
    }
  }

  predicate Unharmed(h: Hid) {
    !h.story.eaten && h.story.straight && (h.peeked != None ==> !h.swept)
  }

  lemma StepDoesNoHarm(h: Hid, step: Step)
    requires Valid(h) && Unharmed(h) && !ResetsInBetween(h, step)
    ensures Unharmed(Next(h, step))
  {
  }

  /** Without a reset between a peek and its receive no release is ever lost,
      whatever was queued, dropped, folded or thrown out before and around it. */
  lemma {:induction false} ReleaseIsNeverLost(fns: Interfaces, steps: seq<Step>)
    ensures var h := Run(Init(fns), steps);
            ResetsIn(fns, steps) == 0 && AtRestAfterRelease(h) && !h.story.lost ==>
              Released(h) && NothingHeld(h.port.target)
  {
    if ResetsIn(fns, steps) == 0 {
      NoResetNoHarm(fns, steps);
      StoryTellsEaten(fns, steps);
      ReleaseIsCarriedOutExactly(fns, steps);
    }
  }

  function Filling(m: Message, n: nat): seq<Step> {
    if n == 0 then [] else Filling(m, n - 1) + [Enqueue(m)]
  }

  lemma {:induction false} FillingFills(h: Hid, m: Message, n: nat)
    requires |h.queue| + n <= DEPTH
    ensures Run(h, Filling(m, n)) == Filled(h, m, n)
  {
    if n > 0 {
      var steps := Filling(m, n - 1);
      FillingFills(h, m, n - 1);
      RunAppend(h, steps, [Enqueue(m)]);
      RunOne(Run(h, steps), Enqueue(m));
      OneMoreFills(h, m, n);
    } else {
      assert h.queue + Copies(m, 0) == h.queue;
    }
  }

  function Copies(m: Message, n: nat): (s: seq<Message>)
    ensures |s| == n && forall i | 0 <= i < n :: s[i] == m
  {
    seq(n, _ => m)
  }

  lemma OneMoreFills(h: Hid, m: Message, n: nat)
    requires n > 0 && |h.queue| + n <= DEPTH
    ensures Next(Filled(h, m, n - 1), Enqueue(m)) == Filled(h, m, n)
  {
    assert h.queue + Copies(m, n) == h.queue + Copies(m, n - 1) + [m];
  }

  function Filled(h: Hid, m: Message, n: nat): Hid {
    h.(queue := h.queue + Copies(m, n), story := h.story.(newer := h.story.newer + n))
  }

  const A_DOWN := Key(0, [4, 0, 0, 0, 0, 0])
  const MOVE := MouseAbs(false, AbsReport(0, 7, 7, 0, 0))

  // A key goes down, the queue fills with idle moves, and a release comes
  // between the worker's two looks at the first of them.
  function LosingSteps(full: nat): seq<Step> {
    [Enqueue(A_DOWN), Receive(true)] + [Enqueue(MOVE), Receive(true)] + Filling(MOVE, full)
    + [PeekFold, ReleaseTry] + [ReleaseReset, ReleaseSend] + [TakeNext, Send]
  }

  /** That schedule loses the release: everybody has finished, and the key is
      still down. */
  lemma {:induction false} ReleaseMayBeEaten(fns: Interfaces, full: nat)
    requires fns.kbd && full == DEPTH
    ensures var h := Run(Init(fns), LosingSteps(full));
            AtRestAfterRelease(h) && !h.story.lost && h.story.eaten && !Released(h) && !NothingHeld(h.port.target)
  {
    var s1, s2 := [Enqueue(A_DOWN), Receive(true)], [Enqueue(MOVE), Receive(true)];
    var s3, s4 := Filling(MOVE, full), [PeekFold, ReleaseTry];
    var s5, s6 := [ReleaseReset, ReleaseSend], [TakeNext, Send];
    RunAppend(Init(fns), s1, s2);
    RunAppend(Init(fns), s1 + s2, s3);
    RunAppend(Init(fns), s1 + s2 + s3, s4);
    RunAppend(Init(fns), s1 + s2 + s3 + s4, s5);
    RunAppend(Init(fns), s1 + s2 + s3 + s4 + s5, s6);
    RunTwo(Init(fns), Enqueue(A_DOWN), Receive(true));
    KeyIsDown(fns);
    var h2 := Run(Run(Init(fns), s1), s2);
    RunTwo(Run(Init(fns), s1), Enqueue(MOVE), Receive(true));
    FillingFills(h2, MOVE, full);
    var h3 := Run(h2, s3);
    RunTwo(h3, PeekFold, ReleaseTry);
    ReleaseFindsItFull(h3);
    var h4 := Run(h3, s4);
    RunTwo(h4, ReleaseReset, ReleaseSend);
    RunTwo(Run(h4, s5), TakeNext, Send);
    ReleaseIsTakenForAMove(h4);
  }

  lemma KeyIsDown(fns: Interfaces)
    requires fns.kbd
    ensures var h := Next(Next(Init(fns), Enqueue(A_DOWN)), Receive(true));
            var e := Next(Next(h, Enqueue(MOVE)), Receive(true));
            && e.port.target.keys == A_DOWN.keys && e.port.fns == fns
            && e.queue == [] && e.pending == [MOVE] && e.peeked == None && e.midRelease == 0
  {
    var h := Next(Init(fns), Enqueue(A_DOWN));
    assert h.queue == [A_DOWN] && h.queue[1..] == [];
    var g := Next(Next(h, Receive(true)), Enqueue(MOVE));
    assert g.queue == [MOVE] && g.queue[1..] == [];
  }

  lemma ReleaseFindsItFull(h: Hid)
    requires |h.queue| == DEPTH && h.queue[0] == MOVE && h.pending == [MOVE] && h.peeked == None && h.midRelease == 0
    ensures Next(Next(h, PeekFold), ReleaseTry) ==
              h.(pending := [MOVE, MOVE], peeked := Some(MOVE), swept := false, midRelease := 1)
  {
    assert IsGroup(h.pending);
    assert h.pending + [MOVE] == [MOVE, MOVE];
  }

  lemma ReleaseIsTakenForAMove(h: Hid)
    requires h.pending == [MOVE, MOVE] && h.peeked == Some(MOVE) && h.midRelease == 1
    requires h.port.target.keys == A_DOWN.keys
    ensures var e := Next(Next(Next(Next(h, ReleaseReset), ReleaseSend), TakeNext), Send);
            AtRestAfterRelease(e) && !e.story.lost && e.story.eaten && !Released(e) && !NothingHeld(e.port.target)
  {
    var r := Next(Next(h, ReleaseReset), ReleaseSend);
    assert r.queue == [ReleaseAll] && ReleaseIsNext(r);
    var t := Next(r, TakeNext);
    assert t.queue == [] && t.story.eaten && t.pending == [MOVE, MOVE];
    assert IsGroup([MOVE, MOVE]);
    var e := Next(t, Send);
    assert e.done[|e.done| - 1] == [MOVE, MOVE];
    assert A_DOWN.keys[0] == 4 && NO_KEYS[0] == 0;
  }

  // ---- a release asked for on a full queue ----

  function Arrivals(steps: seq<Step>): nat {
    if steps == [] then 0
    else
      var last := steps[|steps| - 1];
      Arrivals(steps[..|steps| - 1]) + (if last.Enqueue? || last.ReleaseTry? || last.ReleaseSend? then 1 else 0)
  }

  lemma {:induction false} QueueGrowsByArrivals(h: Hid, steps: seq<Step>)
    ensures |Run(h, steps).queue| <= |h.queue| + Arrivals(steps)
  {
    if steps != [] {
      QueueGrowsByArrivals(h, steps[..|steps| - 1]);
    }
  }

  /** The release that found the queue full gets in after the reset, unless a
      whole queue of other messages gets in between. */
  lemma {:induction false} ReleaseGetsIn(h: Hid, between: seq<Step>)
    requires h.midRelease > 0
    requires Run(Next(h, ReleaseReset), between).midRelease > 0
    ensures var full := Run(Next(h, ReleaseReset), between);
            var after := Next(full, ReleaseSend);
            && (|full.queue| < DEPTH <==>
                  after.queue == full.queue + [ReleaseAll] && after.story.asked && after.story.newer == 0)
            && (|full.queue| >= DEPTH ==> Arrivals(between) >= DEPTH)
  {
    var full := Run(Next(h, ReleaseReset), between);
    QueueGrowsByArrivals(Next(h, ReleaseReset), between);
    assert |full.queue + [ReleaseAll]| == |full.queue| + 1;
  }

  // The worker alone, never folding anew.
  function DrainSteps(n: nat): seq<Step> {
    if n == 0 then [TakeNext, Send] else DrainSteps(n - 1) + [Receive(true), Send]
  }

  lemma WorkerTakesOne(h: Hid)
    requires Valid(h) && h.pending == [] && h.queue != []
    ensures var e := NextSend(NextReceive(h, true));
            && Valid(e) && e.queue == h.queue[1..] && e.pending == []
            && e.midRelease == h.midRelease && e.story == h.story.(taken := e.story.taken)
  {
    ReceiveKeepsValid(h, true);
    SendKeepsValid(NextReceive(h, true));
  }

  predicate Drained(h: Hid, e: Hid, n: nat)
    requires n <= |h.queue|
  {
    && Valid(e) && e.queue == h.queue[n..] && e.pending == []
    && e.midRelease == h.midRelease && e.story == h.story.(taken := e.story.taken)
  }

  lemma {:induction false} DrainEmpties(h: Hid, n: nat)
    requires Valid(h) && h.pending == [] && n <= |h.queue|
    ensures Drained(h, Run(h, DrainSteps(n)), n)
  {
    if n == 0 {
      RunTwo(h, TakeNext, Send);
      assert h.queue[0..] == h.queue;
    } else {
      DrainEmpties(h, n - 1);
      var e := Run(h, DrainSteps(n - 1));
      RunAppend(h, DrainSteps(n - 1), [Receive(true), Send]);
      RunTwo(e, Receive(true), Send);
      WorkerTakesOne(e);
      assert e.queue[1..] == h.queue[n..];
    }
  }

  lemma FinishKeepsStory(h: Hid)
    requires Valid(h)
    ensures var e := NextSend(NextTake(h));
            && Valid(e) && e.pending == [] && e.peeked == None && e.midRelease == h.midRelease
            && e.queue == (if h.peeked != None && h.queue != [] then h.queue[1..] else h.queue)
            && e.story.asked == h.story.asked && e.story.newer == h.story.newer && e.story.lost == h.story.lost
            && e.story.eaten == (h.story.eaten || (h.peeked != None && ReleaseIsNext(h)))
  {
    TakeKeepsValid(h);
    SendKeepsValid(NextTake(h));
  }

  // The worker finishes its report, then takes what waits.
  function FinishSteps(n: nat): seq<Step> {
    [TakeNext, Send] + DrainSteps(n)
  }

  /** A release queued at any moment is carried out by a worker left alone, if and
      only if the worker is not about to receive in place of a message that was
      swept away with all the others. */
  lemma {:induction false} ReleaseHappens(h: Hid)
    requires Valid(h) && h.midRelease == 0 && |h.queue| < DEPTH
    ensures var r := Next(h, ReleaseTry);
            var e := Run(r, FinishSteps(|NextTake(r).queue|));
            && e.queue == [] && e.pending == []
            && (Released(e) <==> !(h.peeked != None && h.swept && h.queue == []))
            && (Released(e) ==> NothingHeld(e.port.target))
  {
    var r := Next(h, ReleaseTry);
    NextKeepsValid(h, ReleaseTry);
    var n := |NextTake(r).queue|;
    RunAppend(r, [TakeNext, Send], DrainSteps(n));
    RunTwo(r, TakeNext, Send);
    FinishKeepsStory(r);
    DrainEmpties(NextSend(NextTake(r)), n);
  }

  // ---- the reports of every run are a grouping, and every grouping is a run ----

  function Groups(h: Hid): seq<seq<Message>> {
    if h.pending == [] then h.done else h.done + [h.pending]
  }

  // What waits, less the message that is in the report already.
  function Waiting(h: Hid): seq<Message> {
    if h.peeked != None && !h.swept && h.queue != [] then h.queue[1..] else h.queue
  }

  // Every message in a report or still waiting, in order of arrival.
  function Stream(h: Hid): seq<Message> {
    Flatten(Groups(h)) + Waiting(h)
  }

  lemma FlattenSnoc(gs: seq<seq<Message>>, g: seq<Message>)
    ensures Flatten(gs + [g]) == Flatten(gs) + g
  {
    assert (gs + [g])[..|gs|] == gs;
  }

  lemma TakingKeepsStream(h: Hid)
    requires Valid(h) && h.pending == [] && h.queue != []
    ensures Stream(NextReceive(h, true)) == Stream(h)
    ensures Stream(NextReceive(h, false)) == Flatten(Groups(h)) + h.queue[1..]
  {
    var m, rest := h.queue[0], h.queue[1..];
    assert h.queue == [m] + rest;
    FlattenSnoc(h.done, [m]);
    assert Flatten(h.done) + [m] + rest == Flatten(h.done) + ([m] + rest);
  }

  lemma FoldingKeepsStream(h: Hid)
    requires CanFoldNext(h)
    ensures Stream(NextPeek(h)) == Stream(h)
    ensures Flatten(Groups(NextPeek(h))) == Flatten(Groups(h)) + [h.queue[0]]
  {
    var m, rest := h.queue[0], h.queue[1..];
    assert h.queue == [m] + rest;
    FlattenSnoc(h.done, h.pending);
    FlattenSnoc(h.done, h.pending + [m]);
    assert Flatten(h.done) + (h.pending + [m]) + rest == Flatten(h.done) + h.pending + ([m] + rest);
  }

  /** First in, first out: taking, folding and sending change nothing in the
      stream; taking a message for an unplugged target drops exactly that one.
      The second look drops a message if and only if the queue was reset since
      the first and filled again, and then it is the head. */
  lemma WorkerKeepsStream(h: Hid)
    requires Valid(h)
    ensures Stream(NextReceive(h, true)) == Stream(h)
    ensures Stream(NextPeek(h)) == Stream(h)
    ensures Stream(NextTake(h)) == Stream(h) <==> !(h.peeked != None && h.swept && h.queue != [])
    ensures h.peeked != None && h.swept && h.queue != [] ==>
              Stream(NextTake(h)) == Flatten(Groups(h)) + h.queue[1..]
    ensures Stream(NextSend(h)) == Stream(h)
    ensures h.pending == [] && h.queue != [] ==>
              Stream(NextReceive(h, false)) == Flatten(Groups(h)) + h.queue[1..]
  {
    if h.pending == [] && h.queue != [] {
      TakingKeepsStream(h);
    }
    if CanFoldNext(h) {
      FoldingKeepsStream(h);
    }
    assert Groups(NextTake(h)) == Groups(h);
    assert Groups(NextSend(h)) == Groups(h);
  }

  lemma OneMoreWaits(h: Hid, m: Message)
    requires Valid(h)
    ensures forall e: Hid | e.queue == h.queue + [m] && e.peeked == h.peeked && e.swept == h.swept ::
              Waiting(e) == Waiting(h) + [m]
  {
    assert h.queue != [] ==> (h.queue + [m])[1..] == h.queue[1..] + [m];
  }

  /** What producers add goes to the end, and only a release that finds the
      queue full throws away what was waiting. */
  lemma ProducersAppend(h: Hid, step: Step)
    requires Valid(h)
    requires Produces(step)
    ensures var n := Next(h, step);
            && Groups(n) == Groups(h)
            && (step.Enqueue? ==> Stream(n) == if |h.queue| < DEPTH then Stream(h) + [step.m] else Stream(h))
            && ((step.ReleaseTry? || (step.ReleaseSend? && h.midRelease > 0)) ==>
                  Stream(n) == if |h.queue| < DEPTH then Stream(h) + [ReleaseAll] else Stream(h))
            && (step.ReleaseReset? ==> Stream(n) == if h.midRelease > 0 then Flatten(Groups(h)) else Stream(h))
  {
    var flat := Flatten(Groups(h));
    if step.Enqueue? {
      OneMoreWaits(h, step.m);
      assert flat + (Waiting(h) + [step.m]) == flat + Waiting(h) + [step.m];
    }
    OneMoreWaits(h, ReleaseAll);
    assert flat + (Waiting(h) + [ReleaseAll]) == flat + Waiting(h) + [ReleaseAll];
    assert flat + [] == flat;
  }

  // ---- what is received is what is reported ----

  function Peeked(h: Hid): seq<Message> {
    if h.peeked == None then [] else [h.peeked.value]
  }

  // Two histories that differ, whatever is added to both.
  predicate Apart(reported: seq<Message>, taken: seq<Message>, owed: nat) {
    || |taken| + owed < |reported|
    || exists i :: 0 <= i < |taken| && i < |reported| && reported[i] != taken[i]
  }

  predicate Accounts(h: Hid) {
    var reported, taken := Flatten(Groups(h)), h.story.taken;
    && |taken| + |Peeked(h)| <= |reported|
    && (h.story.straight ==> reported == taken + Peeked(h))
    && (!h.story.straight ==> Apart(reported, taken, |Peeked(h)|))
  }

  lemma ApartStays(reported: seq<Message>, taken: seq<Message>, m: Message)
    requires Apart(reported, taken, 0)
    ensures Apart(reported + [m], taken + [m], 0) && Apart(reported + [m], taken, 1)
  {
    if i :| 0 <= i < |taken| && i < |reported| && reported[i] != taken[i] {
      assert (reported + [m])[i] != (taken + [m])[i];
      assert (reported + [m])[i] != taken[i];
    }
  }

  // Received in place of p, the last message reported.
  lemma ApartAfterTake(reported: seq<Message>, taken: seq<Message>, p: Message, m: Message)
    requires |taken| < |reported| && reported[|reported| - 1] == p
    requires reported == taken + [p] || Apart(reported, taken, 1)
    ensures reported == taken + [p] && m == p ==> reported == taken + [m]
    ensures Apart(reported, taken, 1) || m != p ==> Apart(reported, taken + [m], 0)
  {
    if reported == taken + [p] && m != p {
      assert reported[|taken|] != (taken + [m])[|taken|];
    } else if Apart(reported, taken, 1) && |taken| + 1 == |reported| {
      var i :| 0 <= i < |taken| && i < |reported| && reported[i] != taken[i];
      assert reported[i] != (taken + [m])[i];
    }
  }

  lemma ReceiveAccounts(h: Hid, mounted: bool)
    requires Valid(h) && Accounts(h)
    ensures Accounts(NextReceive(h, mounted))
  {
    if mounted && h.pending == [] && h.queue != [] {
      var m := h.queue[0];
      FlattenSnoc(h.done, [m]);
      if h.story.straight {
        assert h.story.taken + [] == h.story.taken;
      } else {
        ApartStays(Flatten(Groups(h)), h.story.taken, m);
      }
    }
  }

  lemma PeekAccounts(h: Hid)
    requires Valid(h) && Accounts(h)
    ensures Accounts(NextPeek(h))
  {
    if CanFoldNext(h) {
      FoldingKeepsStream(h);
      if h.story.straight {
        assert h.story.taken + [] == h.story.taken;
      } else {
        ApartStays(Flatten(Groups(h)), h.story.taken, h.queue[0]);
      }
    }
  }

  lemma TakeAccounts(h: Hid)
    requires Valid(h) && Accounts(h)
    ensures Accounts(NextTake(h))
  {
    assert Groups(NextTake(h)) == Groups(h);
    if h.peeked != None && h.queue != [] {
      FlattenSnoc(h.done, h.pending);
      var reported := Flatten(Groups(h));
      assert reported[|reported| - 1] == h.pending[|h.pending| - 1];
      ApartAfterTake(reported, h.story.taken, h.peeked.value, h.queue[0]);
    }
  }

  lemma NextAccounts(h: Hid, step: Step)
    requires Valid(h) && Accounts(h)
    ensures Accounts(Next(h, step))
  {
    match step
    case Receive(mounted) => ReceiveAccounts(h, mounted);
    case PeekFold => PeekAccounts(h);
    case TakeNext => TakeAccounts(h);
    case Send => SendAccounts(h);
    case RepeatPad => RepeatPadIsSilent(h);
    case _ => ProducersAccount(h, step);
  }

  lemma SendAccounts(h: Hid)
    requires Valid(h) && Accounts(h)
    ensures Accounts(NextSend(h))
  {
    assert Groups(NextSend(h)) == Groups(h);
  }

  lemma ProducersAccount(h: Hid, step: Step)
    requires Valid(h) && Accounts(h) && Produces(step)
    ensures Accounts(Next(h, step))
  {
    assert Groups(Next(h, step)) == Groups(h);
  }

  /** Over every run: the messages in the reports are exactly the messages
      received, in order, with the one folded and still to be received, if and
      only if every second look received what the first one saw. */
  lemma {:induction false} ReportsAreWhatWasTaken(fns: Interfaces, steps: seq<Step>)
    ensures var h := Run(Init(fns), steps);
            && Valid(h) && Accounts(h)
            && (Flatten(Groups(h)) == h.story.taken + Peeked(h) <==> h.story.straight)
  {
    RunKeepsValid(Init(fns), steps);
    if steps != [] {
      var before := Run(Init(fns), steps[..|steps| - 1]);
      ReportsAreWhatWasTaken(fns, steps[..|steps| - 1]);
      NextAccounts(before, steps[|steps| - 1]);
    }
  }

  // A step sends one group's report or none.
  lemma NextSendsGroup(h: Hid, step: Step)
    requires Valid(h)
    ensures var n := Next(h, step);
            || (n.done == h.done && n.port == h.port)
            || exists g :: IsGroup(g) && n.done == h.done + [g] && n.port == Dispatch(h.port, FoldAll(g))
  {
    match step
    case RepeatPad => RepeatPadIsSilent(h);
    case Receive(mounted) =>
      if h.pending == [] && h.queue != [] {
        assert IsGroup([h.queue[0]]);
      }
    case _ =>
  }

  lemma {:induction false} PortIsWhatWasSent(fns: Interfaces, steps: seq<Step>)
    ensures var h := Run(Init(fns), steps);
            && Valid(h)
            && h.port == DispatchAll(Fresh(fns), Emit(h.done))
  {
    RunKeepsValid(Init(fns), steps);
    if steps != [] {
      var before := Run(Init(fns), steps[..|steps| - 1]);
      PortIsWhatWasSent(fns, steps[..|steps| - 1]);
      NextSendsGroup(before, steps[|steps| - 1]);
      var h := Run(Init(fns), steps);
      if g :| IsGroup(g) && h.done == before.done + [g] && h.port == Dispatch(before.port, FoldAll(g)) {
        OneMoreDispatched(Fresh(fns), before.done, g);
      }
    }
  }

  lemma OneMoreDispatched(p: Port, gs: seq<seq<Message>>, g: seq<Message>)
    requires IsGrouping(gs) && IsGroup(g)
    ensures IsGrouping(gs + [g])
    ensures DispatchAll(p, Emit(gs + [g])) == Dispatch(DispatchAll(p, Emit(gs)), FoldAll(g))
  {
    assert (gs + [g])[..|gs|] == gs;
    assert Emit(gs + [g])[..|gs|] == Emit(gs);
  }

  /** For every run of producers, callers and worker: the reports sent, with the
      one being built, mean what the messages folded into them meant; no other
      message or button edge is touched; the target ends up as if every one of
      them had been sent by itself. They are the messages received if and only
      if every second look received what the first one saw. */
  lemma {:induction false} EveryRunKeepsMeaning(fns: Interfaces, steps: seq<Step>)
    ensures var h := Run(Init(fns), steps);
            && IsGrouping(Groups(h))
            && Meaning(Emit(Groups(h)), false) == Meaning(Flatten(Groups(h)), false)
            && Wholes(Emit(Groups(h))) == Wholes(Flatten(Groups(h)))
            && (forall absolute :: ButtonTrail(Emit(Groups(h)), absolute) == ButtonTrail(Flatten(Groups(h)), absolute))
            && (BlocksFit(Flatten(Groups(h))) ==> Meaning(Emit(Groups(h)), true) == Meaning(Flatten(Groups(h)), true))
            && h.port == DispatchAll(Fresh(fns), Emit(h.done))
            && AtRest(h.port) == AtRest(DispatchAll(Fresh(fns), Flatten(h.done)))
            && (Flatten(Groups(h)) == h.story.taken + Peeked(h) <==> h.story.straight)
  {
    var h := Run(Init(fns), steps);
    PortIsWhatWasSent(fns, steps);
    ReportsAreWhatWasTaken(fns, steps);
    var gs := Groups(h);
    CoalescingKeepsMeaning(gs, false);
    CoalescingKeepsEvents(gs);
    CoalescingKeepsTarget(Fresh(fns), h.done);
    if BlocksFit(Flatten(gs)) {
      ScrollSurvivesExactly(Flatten(gs));
    }
  }

  // How the worker comes to send one group: its messages arrive one at a time.
  function GroupSteps(g: seq<Message>): seq<Step>
    requires g != []
  {
    if |g| == 1 then [Enqueue(g[0]), Receive(true)]
    else GroupSteps(g[..|g| - 1]) + [Enqueue(g[|g| - 1]), PeekFold, TakeNext]
  }

  function Schedule(gs: seq<seq<Message>>): seq<Step>
    requires IsGrouping(gs)
  {
    if gs == [] then [] else Schedule(gs[..|gs| - 1]) + GroupSteps(gs[|gs| - 1]) + [Send]
  }

  lemma OneMoreFolded(h: Hid, m: Message)
    requires h.queue == [] && h.peeked == None && h.pending != [] && IsGroup(h.pending) && IsGroup(h.pending + [m])
    ensures var e := NextTake(NextPeek(Next(h, Enqueue(m))));
            e.queue == [] && e.peeked == None && e.pending == h.pending + [m] && e.done == h.done
  {
    var g := h.pending + [m];
    assert g[|g| - 1] == m && IsIdle(g[0]) && SameKind(g[0], g[|g| - 1]);
    assert h.pending[0] == g[0];
  }

  lemma {:induction false} GroupIsBuilt(h: Hid, g: seq<Message>)
    requires IsGroup(g) && IsMouse(g[0])
    requires h.queue == [] && h.peeked == None && h.pending == []
    ensures var e := Run(h, GroupSteps(g));
            e.queue == [] && e.peeked == None && e.pending == g && e.done == h.done
  {
    if |g| == 1 {
      FirstArrives(h, g[0]);
      assert g == [g[0]];
    } else {
      var init, m := g[..|g| - 1], g[|g| - 1];
      assert GroupSteps(g) == GroupSteps(init) + [Enqueue(m), PeekFold, TakeNext];
      PartIsGroup(g, |g| - 1);
      GroupIsBuilt(h, init);
      assert init + [m] == g;
      OneMoreAfter(h, GroupSteps(init), init, m);
    }
  }

  lemma OneMoreAfter(h: Hid, steps: seq<Step>, g: seq<Message>, m: Message)
    requires g != [] && IsGroup(g) && IsGroup(g + [m])
    requires var e := Run(h, steps); e.queue == [] && e.peeked == None && e.pending == g && e.done == h.done
    ensures var e := Run(h, steps + [Enqueue(m), PeekFold, TakeNext]);
            e.queue == [] && e.peeked == None && e.pending == g + [m] && e.done == h.done
  {
    RunAppend(h, steps, [Enqueue(m), PeekFold, TakeNext]);
    OneMoreArrives(Run(h, steps), m);
  }

  lemma FirstArrives(h: Hid, m: Message)
    requires h.queue == [] && h.peeked == None && h.pending == [] && IsMouse(m)
    ensures var e := Run(h, [Enqueue(m), Receive(true)]);
            e.queue == [] && e.peeked == None && e.pending == [m] && e.done == h.done
  {
    RunTwo(h, Enqueue(m), Receive(true));
  }

  lemma PartIsGroup(g: seq<Message>, n: nat)
    requires IsGroup(g) && IsMouse(g[0]) && 1 <= n <= |g|
    ensures IsGroup(g[..n]) && IsMouse(g[..n][0])
  {
    assert forall i | 0 <= i < n :: g[..n][i] == g[i];
  }

  lemma OneMoreArrives(h: Hid, m: Message)
    requires h.queue == [] && h.peeked == None && h.pending != [] && IsGroup(h.pending) && IsGroup(h.pending + [m])
    ensures var e := Run(h, [Enqueue(m), PeekFold, TakeNext]);
            e.queue == [] && e.peeked == None && e.pending == h.pending + [m] && e.done == h.done
  {
    RunThree(h, Enqueue(m), PeekFold, TakeNext);
    OneMoreFolded(h, m);
  }

  lemma {:induction false} GroupIsSent(h: Hid, g: seq<Message>)
    requires IsGroup(g)
    requires h.queue == [] && h.peeked == None && h.pending == []
    ensures var e := Next(Run(h, GroupSteps(g)), Send);
            e.queue == [] && e.peeked == None && e.pending == [] && e.done == h.done + [g]
  {
    if IsMouse(g[0]) {
      GroupIsBuilt(h, g);
    } else {
      RunTwo(h, Enqueue(g[0]), Receive(true));
      assert g == [g[0]];
    }
  }

  /** Each way of cutting a stream into groups happens on some schedule, so the
      claims about all groupings are claims about the worker and not more. */
  lemma {:induction false} EveryGroupingHappens(fns: Interfaces, gs: seq<seq<Message>>)
    requires IsGrouping(gs)
    ensures var h := Run(Init(fns), Schedule(gs));
            h.queue == [] && h.peeked == None && h.pending == [] && h.done == gs
  {
    if gs != [] {
      var n := |gs| - 1;
      EveryGroupingHappens(fns, gs[..n]);
      OneMoreSent(Init(fns), Schedule(gs[..n]), gs[n]);
      assert gs == gs[..n] + [gs[n]];
    }
  }

  lemma OneMoreSent(h: Hid, steps: seq<Step>, g: seq<Message>)
    requires IsGroup(g)
    requires var e := Run(h, steps); e.queue == [] && e.peeked == None && e.pending == []
    ensures var e := Run(h, steps + GroupSteps(g) + [Send]);
            e.queue == [] && e.peeked == None && e.pending == [] && e.done == Run(h, steps).done + [g]
  {
    RunAppend(h, steps + GroupSteps(g), [Send]);
    RunAppend(h, steps, GroupSteps(g));
    RunOne(Run(Run(h, steps), GroupSteps(g)), Send);
    GroupIsSent(Run(h, steps), g);
  }
}
