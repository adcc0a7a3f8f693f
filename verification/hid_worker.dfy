// The driver's own form: globals, a queue and a worker that updates its pending
// report in place, each method proved to be the corresponding step.
module HidDriver {
  import opened Options
  import opened HidReports
  import opened HidPort
  import opened HidCarried
  import opened HidQueue

  // What other tasks do before the worker looks at the head of the queue, and
  // between that look and the receive.
  datatype Gap = Gap(before: seq<Step>, between: seq<Step>)

  predicate OthersOnly(gaps: seq<Gap>) {
    forall i | 0 <= i < |gaps| ::
      && (forall k | 0 <= k < |gaps[i].before| :: Produces(gaps[i].before[k]))
      && (forall k | 0 <= k < |gaps[i].between| :: Produces(gaps[i].between[k]))
  }

  // The folding loop, with the others at work in its gaps; it ends where nothing
  // goes, or where the queue looks empty after the last gap.
  ghost function FoldLoop(h: Hid, gaps: seq<Gap>): Hid
    decreases |gaps|
  {
    if gaps == [] then h
    else if !Goes(h, gaps[0]) then FoldOnce(h, gaps[0])
    else FoldLoop(FoldOnce(h, gaps[0]), gaps[1..])
  }

  ghost predicate Goes(h: Hid, gap: Gap) {
    CanFoldNext(Run(h, gap.before))
  }

  ghost function FoldOnce(h: Hid, gap: Gap): Hid {
    var seen := Run(h, gap.before);
    if CanFoldNext(seen) then NextTake(Run(NextPeek(seen), gap.between)) else seen
  }

  class Driver {
    var queue: seq<Message>
    var holding: bool       // a pointer report is being built
    var acc: Message        // that report
    var target: Target      // what the host has been sent
    var lastX: uint16
    var lastY: uint16
    var lastPad: PadReport
    const fns: Interfaces
    var midRelease: nat     // callers between finding the queue full and sending again

    ghost var pending: seq<Message>
    ghost var peeked: Option<Message>
    ghost var swept: bool
    ghost var done: seq<seq<Message>>
    ghost var story: Story

    ghost function P(): Port
      reads this
    {
      Port(fns, target, lastX, lastY, lastPad)
    }

    ghost function H(): Hid
      reads this
    {
      Hid(queue, pending, peeked, swept, done, P(), midRelease, story)
    }

    ghost predicate Ok()
      reads this
    {
      && Valid(H())
      && holding == (pending != [])
      && (holding ==> acc == FoldAll(pending))
    }

    constructor (fns: Interfaces)
      ensures Ok() && H() == Init(fns)
    {
      this.fns := fns;
      queue, holding, acc := [], false, ReleaseAll;
      target := Fresh(fns).target;
      lastX, lastY, lastPad := 0, 0, PAD_IDLE;
      pending, peeked, swept, done := [], None, false, [];
      midRelease, story := 0, Init(fns).story;
    }

    // ---- producers ----

    method Add(m: Message)
      requires Ok()
      modifies this`queue, this`story
      ensures Ok() && H() == Next(old(H()), Enqueue(m))
      ensures queue == if |old(queue)| < 192 then old(queue) + [m] else old(queue)
    {
      NextKeepsValid(H(), Enqueue(m));
      if |queue| < DEPTH {
        queue := queue + [m];
        story := story.(newer := story.newer + 1);
      }
    }

    // The three calls on the queue that a release makes, each by itself.
    method TrySend() returns (sent: bool)
      requires Ok()
      modifies this`queue, this`story, this`midRelease
      ensures Ok() && H() == Next(old(H()), ReleaseTry)
      ensures sent == (|old(queue)| < 192)
      ensures queue == if sent then old(queue) + [ReleaseAll] else old(queue)
    {
      NextKeepsValid(H(), ReleaseTry);
      sent := |queue| < DEPTH;
      if sent {
        queue := queue + [ReleaseAll];
        story := story.(asked := true, newer := 0, lost := false, eaten := false);
      } else {
        midRelease := midRelease + 1;
      }
    }

    method ResetQueue()
      requires Ok() && midRelease > 0
      modifies this`queue, this`swept
      ensures Ok() && H() == Next(old(H()), ReleaseReset)
      ensures queue == []
    {
      NextKeepsValid(H(), ReleaseReset);
      queue, swept := [], true;
    }

    method SendAgain()
      requires Ok() && midRelease > 0
      modifies this`queue, this`story, this`midRelease
      ensures Ok() && H() == Next(old(H()), ReleaseSend)
      ensures queue == if |old(queue)| < 192 then old(queue) + [ReleaseAll] else old(queue)
    {
      NextKeepsValid(H(), ReleaseSend);
      if |queue| < DEPTH {
        queue := queue + [ReleaseAll];
        story := story.(asked := true, newer := 0, lost := false, eaten := false);
      }
      midRelease := midRelease - 1;
    }

    /** With nobody in between, a release always gets in. */
    method RequestRelease()
      requires Ok()
      modifies this`queue, this`story, this`midRelease, this`swept
      ensures Ok()
      ensures |old(queue)| < DEPTH ==> H() == Next(old(H()), ReleaseTry)
      ensures |old(queue)| >= DEPTH ==>
                H() == Next(Next(Next(old(H()), ReleaseTry), ReleaseReset), ReleaseSend)
      ensures queue == (if |old(queue)| < DEPTH then old(queue) else []) + [ReleaseAll]
    {
      var sent := TrySend();
      if !sent {
        ResetQueue();
        SendAgain();
      }
    }

    // Whatever other tasks do with the queue meanwhile.
    method Others(steps: seq<Step>)
      requires Ok() && forall k | 0 <= k < |steps| :: Produces(steps[k])
      modifies this`queue, this`story, this`midRelease, this`swept
      ensures Ok() && H() == Run(old(H()), steps)
    {
      for k := 0 to |steps|
        invariant Ok() && H() == Run(old(H()), steps[..k])
      {
        assert steps[..k + 1][..k] == steps[..k];
        Other(steps[k]);
      }
      assert steps[..|steps|] == steps;
    }

    method Other(step: Step)
      requires Ok() && Produces(step)
      modifies this`queue, this`story, this`midRelease, this`swept
      ensures Ok() && H() == Next(old(H()), step)
    {
      match step
      case Enqueue(m) => Add(m);
      case ReleaseTry => var _ := TrySend();
      case ReleaseReset =>
        if midRelease > 0 {
          ResetQueue();
        }
      case ReleaseSend =>
        if midRelease > 0 {
          SendAgain();
        }
      case _ => assert false;
    }

    // ---- worker ----

    /** Fold a newer message into the pending one, or refuse. */
    method MergeMouse(add: Message) returns (merged: bool)
      requires IsMouse(acc)
      modifies this`acc
      ensures merged == CanFold(old(acc), add)
      ensures acc == if merged then Fold(old(acc), add) else old(acc)
      ensures merged <==> MayFold(old(acc), add)
      ensures merged ==> BothCarried(old(acc), add, acc)
    {
      if acc.MouseAbs? != add.MouseAbs? || acc.MouseRel? != add.MouseRel? {
        return false;
      }
      if acc.solo || add.solo {
        return false;
      }
      var accButtons := if acc.MouseAbs? then acc.abs.buttons else acc.rel.buttons;
      var addButtons := if add.MouseAbs? then add.abs.buttons else add.rel.buttons;
      if accButtons != addButtons {
        return false;
      }
      if accButtons != 0 {
        return false;
      }
      if acc.MouseAbs? {
        var wheel := acc.abs.wheel + add.abs.wheel;
        var pan := acc.abs.pan + add.abs.pan;
        acc := MouseAbs(false, add.abs);
        acc := acc.(abs := acc.abs.(wheel := if wheel > 127 then 127 else if wheel < -127 then -127 else wheel));
        acc := acc.(abs := acc.abs.(pan := if pan > 127 then 127 else if pan < -127 then -127 else pan));
        return true;
      }
      acc := acc.(rel := acc.rel.(buttons := add.rel.buttons));
      acc := acc.(rel := acc.rel.(dx := acc.rel.dx + add.rel.dx, dy := acc.rel.dy + add.rel.dy));
      var wheel := acc.rel.wheel + add.rel.wheel;
      var pan := acc.rel.pan + add.rel.pan;
      acc := acc.(rel := acc.rel.(wheel := if wheel > 127 then 127 else if wheel < -127 then -127 else wheel));
      acc := acc.(rel := acc.rel.(pan := if pan > 127 then 127 else if pan < -127 then -127 else pan));
      return true;
    }

    method EmitAbs(r: AbsReport)
      modifies this`target, this`lastX, this`lastY
      ensures P() == SendAbs(old(P()), r)
      ensures if fns.ptr then AbsCarried(r, old(target), target) else target == old(target)
    {
      lastX, lastY := r.x, r.y;
      if fns.ptr {
        target := HearAbs(target, r);
      }
    }

    method EmitRel(buttons: uint8, dx: int, dy: int, wheel: int8, pan: int8)
      modifies this`target
      ensures P() == SendRel(old(P()), RelMotion(buttons, dx, dy, wheel, pan))
      ensures if fns.rel then RelCarried(RelMotion(buttons, dx, dy, wheel, pan), old(target), target)
              else target == old(target)
    {
      var x, y := dx, dy;
      if x > 0x7fff {
        x := 0x7fff;
      } else if x < -0x8000 {
        x := -0x8000;
      }
      if y > 0x7fff {
        y := 0x7fff;
      } else if y < -0x8000 {
        y := -0x8000;
      }
      if fns.rel {
        target := HearRel(target, RelReport(buttons, x, y, wheel, pan));
      }
    }

    method EmitPad(r: PadReport)
      modifies this`target, this`lastPad
      ensures P() == SendPad(old(P()), r)
      ensures if fns.pad then PadCarried(r, false, old(target), target) else target == old(target)
    {
      lastPad := r;
      if fns.pad {
        target := HearPad(target, r);
      }
    }

    method EmitReleaseAll()
      modifies this`target, this`lastX, this`lastY, this`lastPad
      ensures P() == SendReleaseAll(old(P()))
      ensures ReleaseCarried(fns, old(target), target)
    {
      ReleaseGoes(P());
      if fns.kbd {
        target := HearKeys(target, 0, NO_KEYS);
      }
      EmitPad(PAD_IDLE);
      if fns.ptr {
        target := target.(consumer := 0);
      }
      EmitRel(0, 0, 0, 0, 0);
      EmitAbs(AbsReport(0, lastX, lastY, 0, 0));
    }

    method DispatchMessage(m: Message)
      modifies this`target, this`lastX, this`lastY, this`lastPad
      ensures P() == Dispatch(old(P()), m)
      ensures Carried(fns, m, old(target), target)
    {
      DispatchCarries(P(), m);
      match m
      case MouseAbs(_, r) => EmitAbs(r);
      case MouseRel(_, r) => EmitRel(r.buttons, r.dx, r.dy, r.wheel, r.pan);
      case Key(modifier, keys) =>
        if fns.kbd {
          target := HearKeys(target, modifier, keys);
        }
      case Consumer(usage) =>
        if fns.ptr {
          target := target.(consumer := usage);
        }
      case Pad(r, holdMs) =>
        EmitPad(r);
        if holdMs > 0 {
          EmitPad(PAD_IDLE);
        }
      case ReleaseAll => EmitReleaseAll();
    }

    method Take(mounted: bool)
      requires Ok() && !holding
      modifies this
      ensures Ok() && H() == Next(old(H()), Receive(mounted))
    {
      ReceiveKeepsValid(H(), mounted);
      if |queue| == 0 {
        return;
      }
      var msg := queue[0];
      ghost var isLast := ReleaseIsNext(H());
      queue := queue[1..];
      if !mounted {
        story := story.(lost := story.lost || isLast);
        return;
      }
      story := story.(taken := story.taken + [msg]);
      TakeMessage(msg);
    }

    // What is no move goes out at once.
    method TakeMessage(msg: Message)
      requires !holding && pending == []
      modifies this`target, this`lastX, this`lastY, this`lastPad, this`done, this`acc, this`holding, this`pending
      ensures H() == if IsMouse(msg) then old(H()).(pending := [msg]) else Deliver(old(H()), [msg])
      ensures holding == IsMouse(msg) && (holding ==> acc == msg)
    {
      if !msg.MouseAbs? && !msg.MouseRel? {
        DispatchMessage(msg);
        done := done + [[msg]];
        return;
      }
      acc, holding := msg, true;
      pending := [msg];
    }

    /** Look at the head of the queue and fold it in if it goes; it stays there. */
    method PeekHead() returns (folded: bool)
      requires Ok() && holding && peeked == None
      modifies this`acc, this`pending, this`peeked, this`swept
      ensures Ok() && holding && H() == Next(old(H()), PeekFold)
      ensures folded == CanFoldNext(old(H())) == (peeked != None)
    {
      PeekKeepsValid(H());
      if |queue| == 0 {
        return false;
      }
      var next := queue[0];
      folded := MergeMouse(next);
      if folded {
        FoldAllSnoc(pending, next);
        pending, peeked, swept := pending + [next], Some(next), false;
      }
    }

    /** Receive the head, which is to be the message just folded in. */
    method TakeHead()
      requires Ok() && holding && peeked != None
      modifies this`queue, this`peeked, this`story
      ensures Ok() && holding && peeked == None && H() == Next(old(H()), TakeNext)
    {
      TakeKeepsValid(H());
      if |queue| == 0 {
        peeked, story := None, story.(straight := false);
        return;
      }
      story := story.(eaten := story.eaten || ReleaseIsNext(H()), taken := story.taken + [queue[0]],
                      straight := story.straight && Some(queue[0]) == peeked);
      queue, peeked := queue[1..], None;
    }

    method SendPending()
      requires Ok() && holding && peeked == None
      modifies this
      ensures Ok() && !holding && H() == Next(old(H()), Send)
    {
      SendKeepsValid(H());
      DispatchMessage(acc);
      done := done + [pending];
      holding, pending := false, [];
    }

    // Fold in what goes, with the others at work in the gaps.
    method FoldWhileItGoes(gaps: seq<Gap>)
      requires Ok() && holding && peeked == None && OthersOnly(gaps)
      modifies this`queue, this`acc, this`pending, this`peeked, this`swept, this`story, this`midRelease
      ensures Ok() && holding && peeked == None
      ensures H() == FoldLoop(old(H()), gaps)
    {
      var k := 0;
      assert gaps[0..] == gaps;
      while k < |gaps|
        invariant k <= |gaps| && Ok() && holding && peeked == None
        invariant FoldLoop(old(H()), gaps) == FoldLoop(H(), gaps[k..])
      {
        assert gaps[k..][1..] == gaps[k + 1..];
        var folded := FoldRound(gaps[k]);
        if !folded {
          return;
        }
        k := k + 1;
      }
    }

    method FoldRound(gap: Gap) returns (folded: bool)
      requires Ok() && holding && peeked == None && OthersOnly([gap])
      modifies this`queue, this`acc, this`pending, this`peeked, this`swept, this`story, this`midRelease
      ensures Ok() && holding && peeked == None
      ensures folded == Goes(old(H()), gap) && H() == FoldOnce(old(H()), gap)
    {
      assert [gap][0] == gap;
      folded := Look(gap.before);
      if folded {
        Finish(gap.between);
      }
    }

    method Look(before: seq<Step>) returns (folded: bool)
      requires Ok() && holding && peeked == None && forall k | 0 <= k < |before| :: Produces(before[k])
      modifies this`queue, this`acc, this`pending, this`peeked, this`swept, this`story, this`midRelease
      ensures Ok() && holding && H() == NextPeek(Run(old(H()), before))
      ensures folded == CanFoldNext(Run(old(H()), before)) == (peeked != None)
    {
      Others(before);
      folded := PeekHead();
    }

    method Finish(between: seq<Step>)
      requires Ok() && holding && peeked != None && forall k | 0 <= k < |between| :: Produces(between[k])
      modifies this`queue, this`peeked, this`swept, this`story, this`midRelease
      ensures Ok() && holding && peeked == None && H() == NextTake(Run(old(H()), between))
    {
      Others(between);
      TakeHead();
    }

    /** One pass of the worker's loop, with the others at work in its gaps. */
    method WorkerPass(mounted: bool, gaps: seq<Gap>)
      requires Ok() && !holding && OthersOnly(gaps)
      modifies this
      ensures Ok() && !holding
      ensures var taken := NextReceive(old(H()), mounted);
              H() == if taken.pending == [] then taken else NextSend(FoldLoop(taken, gaps))
    {
      Take(mounted);
      if holding {
        FoldWhileItGoes(gaps);
        SendPending();
      }
    }
  }
}
