// The agent's request and answer protocol and its line framing. Models
// kvm_agent_call, handle_line and agent_task in components/kvm_agent/kvm_agent.c.
// Every critical section and every semaphore operation is one step; callers,
// the reader task and timeouts interleave freely.

module AgentProtocol {
  import opened Options

  // One answer line as the reader keeps it: a copy of its own each time.
  datatype Answer = Answer(id: int, text: string, copy: nat)

  // Where a caller is inside kvm_agent_call.
  datatype Phase =
    | Outside
    | Locked           // holds s_call
    | Armed(id: int)   // waits for id; the semaphore may be stale
    | Cleared(id: int) // the semaphore is clear, the request on its way
    | Sent(id: int)    // the request is out
    | Took(id: int)    // the semaphore came
    | Failed(id: int)  // it did not, or the request could not be sent
    | Leaving          // about to give s_call back

  // A call that returned ESP_OK, and what it was given.
  datatype Return = Return(caller: nat, id: int, line: Option<Answer>)

  datatype State = State(
    phases: seq<Phase>,        // one for each caller
    holder: Option<nat>,       // who has s_call
    nextId: int,
    waitId: int,               // 0 for none
    answer: Option<Answer>,
    done: bool,                // the binary semaphore
    copies: nat,               // answer lines ever copied
    returned: seq<Return>,
    freed: seq<nat>)           // copies freed unread

  datatype Step =
    | TakeCall(c: nat)
    | Register(c: nat)
    | Clear(c: nat)
    | Write(c: nat, ok: bool)
    | Wait(c: nat)
    | TimeOut(c: nat)
    | Finish(c: nat)
    | GiveCall(c: nat)
    | Line(id: int, text: string)  // the reader task has a line with this id

  function Init(callers: nat): State {
    State(seq(callers, _ => Outside), None, 1, 0, None, false, 0, [], [])
  }

  function At(s: State, c: nat): Phase {
    if c < |s.phases| then s.phases[c] else Outside
  }

  function Move(s: State, c: nat, p: Phase): State
    requires c < |s.phases|
  {
    s.(phases := s.phases[c := p])
  }

  function NextRegister(s: State, c: nat): State {
    if At(s, c) == Locked then
      Move(s, c, Armed(s.nextId)).(
        nextId := s.nextId + 1, waitId := s.nextId, answer := None,
        freed := if s.answer.Some? then s.freed + [s.answer.value.copy] else s.freed)
    else s
  }

  function NextFinish(s: State, c: nat): State {
    if At(s, c).Took? then
      Move(s, c, Leaving).(waitId := 0, answer := None,
                           returned := s.returned + [Return(c, s.phases[c].id, s.answer)])
    else if At(s, c).Failed? then Move(s, c, Leaving).(waitId := 0)
    else s
  }

  function NextLine(s: State, id: int, text: string): State {
    if s.waitId != 0 && id == s.waitId
    then s.(answer := Some(Answer(id, text, s.copies)), copies := s.copies + 1, waitId := 0, done := true)
    else s
  }

  // A step that is not possible leaves the state as it is.
  function Next(s: State, step: Step): State {
    match step
    case TakeCall(c) =>
      if c < |s.phases| && s.phases[c] == Outside && s.holder == None
      then Move(s, c, Locked).(holder := Some(c)) else s
    case Register(c) => NextRegister(s, c)
    case Clear(c) =>
      if At(s, c).Armed? then Move(s, c, Cleared(s.phases[c].id)).(done := false) else s
    case Write(c, ok) =>
      if At(s, c).Cleared? then Move(s, c, if ok then Sent(s.phases[c].id) else Failed(s.phases[c].id)) else s
    case Wait(c) =>
      if At(s, c).Sent? && s.done then Move(s, c, Took(s.phases[c].id)).(done := false) else s
    case TimeOut(c) =>
      if At(s, c).Sent? && !s.done then Move(s, c, Failed(s.phases[c].id)) else s
    case Finish(c) => NextFinish(s, c)
    case GiveCall(c) =>
      if At(s, c) == Leaving then Move(s, c, Outside).(holder := None) else s
    case Line(id, text) => NextLine(s, id, text)
  }

  function Run(s: State, steps: seq<Step>): State
    decreases |steps|
  {
    if steps == [] then s else Next(Run(s, steps[..|steps| - 1]), steps[|steps| - 1])
  }

  // ---- what every step keeps ----

  // Only the holder of s_call is inside.
  predicate Exclusive(s: State) {
    && (s.holder.Some? ==> s.holder.value < |s.phases|)
    && forall c | 0 <= c < |s.phases| :: s.phases[c] != Outside <==> s.holder == Some(c)
  }

  function Current(s: State): Phase {
    if s.holder.Some? then At(s, s.holder.value) else Outside
  }

  // Once a stale semaphore is cleared, a set one means the line is there.
  predicate Waiting(s: State, id: int) {
    && (s.waitId == 0 || s.waitId == id)
    && (s.done ==> s.waitId == 0 && s.answer.Some? && s.answer.value.id == id)
  }

  // What the caller inside may rely on.
  predicate SlotOk(s: State) {
    match Current(s)
    case Outside => s.waitId == 0
    case Locked => s.waitId == 0
    case Armed(id) => id == s.nextId - 1 && (s.waitId == 0 || s.waitId == id)
    case Cleared(id) => id == s.nextId - 1 && Waiting(s, id)
    case Sent(id) => id == s.nextId - 1 && Waiting(s, id)
    case Took(id) => id == s.nextId - 1 && s.waitId == 0 && s.answer.Some? && s.answer.value.id == id
    case Failed(id) => id == s.nextId - 1 && (s.waitId == 0 || s.waitId == id)
    case Leaving => s.waitId == 0
  }

  predicate OwnLines(rs: seq<Return>) {
    forall i | 0 <= i < |rs| :: rs[i].line.Some? && rs[i].line.value.id == rs[i].id
  }

  predicate IdsGrow(rs: seq<Return>) {
    forall i, j | 0 <= i < j < |rs| :: rs[i].id < rs[j].id
  }

  predicate Asking(p: Phase) {
    p.Armed? || p.Cleared? || p.Sent? || p.Took? || p.Failed?
  }

  // The id in use is above every one that was answered before.
  predicate IdsBelow(s: State) {
    forall i | 0 <= i < |s.returned| ::
      s.returned[i].id < if Asking(Current(s)) then s.nextId - 1 else s.nextId
  }

  predicate Valid(s: State) {
    && s.nextId >= 1
    && Exclusive(s) && SlotOk(s)
    && (s.waitId != 0 ==> s.answer == None)
    && OwnLines(s.returned) && IdsGrow(s.returned) && IdsBelow(s)
  }

  // Which copy is with a caller, freed, or in the slot.
  function ReturnedCopies(rs: seq<Return>): multiset<nat> {
    if rs == [] then multiset{}
    else
      var last := rs[|rs| - 1].line;
      ReturnedCopies(rs[..|rs| - 1]) + if last.Some? then multiset{last.value.copy} else multiset{}
  }

  function SlotCopy(a: Option<Answer>): multiset<nat> {
    if a.Some? then multiset{a.value.copy} else multiset{}
  }

  function Owners(s: State): multiset<nat> {
    ReturnedCopies(s.returned) + multiset(s.freed) + SlotCopy(s.answer)
  }

  function EachOnce(n: nat): multiset<nat> {
    if n == 0 then multiset{} else EachOnce(n - 1) + multiset{n - 1}
  }

  lemma FinishKeepsValid(s: State, c: nat)
    requires Valid(s)
    ensures Valid(NextFinish(s, c))
  {
  }

  lemma RegisterKeepsValid(s: State, c: nat)
    requires Valid(s)
    ensures Valid(NextRegister(s, c))
  {
  }

  lemma NextKeepsValid(s: State, step: Step)
    requires Valid(s)
    ensures Valid(Next(s, step))
  {
    match step
    case Register(c) => RegisterKeepsValid(s, c);
    case Finish(c) => FinishKeepsValid(s, c);
    case _ =>
  }

  // Every copy ever made is in exactly one place.
  predicate OneOwner(s: State) {
    Owners(s) == EachOnce(s.copies)
  }

  lemma LineKeepsOwners(s: State, id: int, text: string)
    requires Valid(s) && OneOwner(s)
    ensures OneOwner(NextLine(s, id, text))
  {
  }

  lemma RegisterKeepsOwners(s: State, c: nat)
    requires OneOwner(s)
    ensures OneOwner(NextRegister(s, c))
  {
    if s.answer.Some? {
      assert multiset(s.freed + [s.answer.value.copy]) == multiset(s.freed) + multiset{s.answer.value.copy};
    }
  }

  lemma FinishKeepsOwners(s: State, c: nat)
    requires OneOwner(s)
    ensures OneOwner(NextFinish(s, c))
  {
    var n := NextFinish(s, c);
    if At(s, c).Took? {
      assert n.returned[..|n.returned| - 1] == s.returned;
    }
  }

  lemma OthersKeepOwners(s: State, step: Step)
    requires !step.Line? && !step.Register? && !step.Finish?
    requires OneOwner(s)
    ensures OneOwner(Next(s, step))
  {
  }

  lemma NextKeepsOwners(s: State, step: Step)
    requires Valid(s) && OneOwner(s)
    ensures OneOwner(Next(s, step))
  {
    if step.Line? {
      LineKeepsOwners(s, step.id, step.text);
    } else if step.Register? {
      RegisterKeepsOwners(s, step.c);
    } else if step.Finish? {
      FinishKeepsOwners(s, step.c);
    } else {
      OthersKeepOwners(s, step);
    }
  }

  lemma {:induction false} RunKeepsValid(s: State, steps: seq<Step>)
    requires Valid(s)
    ensures Valid(Run(s, steps))
    ensures OneOwner(s) ==> OneOwner(Run(s, steps))
  {
    if steps != [] {
      var before := Run(s, steps[..|steps| - 1]);
      RunKeepsValid(s, steps[..|steps| - 1]);
      NextKeepsValid(before, steps[|steps| - 1]);
      if OneOwner(before) {
        NextKeepsOwners(before, steps[|steps| - 1]);
      }
    }
  }

  lemma {:induction false} EachOnceCounts(n: nat, t: nat)
    ensures EachOnce(n)[t] == if t < n then 1 else 0
  {
    if n > 0 {
      EachOnceCounts(n - 1, t);
    }
  }

  /** In every interleaving: a call that returns ESP_OK has the line with its own
      id, no two calls have the same id, and each copied line is with exactly one
      caller, freed, or in the slot. */
  lemma {:induction false} AnswersAreNeverCrossed(callers: nat, steps: seq<Step>)
    ensures var s := Run(Init(callers), steps);
            && OwnLines(s.returned) && IdsGrow(s.returned)
            && forall t | 0 <= t < s.copies :: Owners(s)[t] == 1
  {
    RunKeepsValid(Init(callers), steps);
    var s := Run(Init(callers), steps);
    forall t | 0 <= t < s.copies ensures Owners(s)[t] == 1 {
      EachOnceCounts(s.copies, t);
    }
  }

  // ---- a call that nothing can answer any more ----

  // Its request could not be sent, or its line came before the semaphore was
  // cleared and the clearing took it for a stale one.
  predicate Doomed(s: State, id: int) {
    && id < s.nextId
    && (forall i | 0 <= i < |s.returned| :: s.returned[i].id != id)
    && (Asking(Current(s)) && s.nextId - 1 == id ==>
          || Current(s).Failed?
          || ((Current(s).Cleared? || Current(s).Sent?) && s.waitId == 0 && !s.done))
  }

  lemma NextKeepsDoomed(s: State, id: int, step: Step)
    requires Valid(s) && Doomed(s, id)
    ensures Doomed(Next(s, step), id)
  {
  }

  lemma {:induction false} RunKeepsDoomed(s: State, id: int, steps: seq<Step>)
    requires Valid(s) && Doomed(s, id)
    ensures Doomed(Run(s, steps), id)
  {
    if steps != [] {
      RunKeepsValid(s, steps[..|steps| - 1]);
      RunKeepsDoomed(s, id, steps[..|steps| - 1]);
      NextKeepsDoomed(Run(s, steps[..|steps| - 1]), id, steps[|steps| - 1]);
    }
  }

  // ---- an answer that comes while the call waits is not lost ----

  // The call has this line, or will take it once its request is out; it cannot
  // time out.
  predicate Assured(s: State, c: nat, a: Answer) {
    || ((At(s, c) == Cleared(a.id) || At(s, c) == Sent(a.id)) && s.done && s.answer == Some(a))
    || (At(s, c) == Took(a.id) && s.answer == Some(a))
    || Return(c, a.id, Some(a)) in s.returned
  }

  // The rest of the request cannot be sent.
  predicate SendFailsNow(s: State, c: nat, id: int, step: Step) {
    step == Write(c, false) && At(s, c) == Cleared(id)
  }

  predicate SendFails(s: State, c: nat, id: int, steps: seq<Step>) {
    steps != [] &&
    var init := steps[..|steps| - 1];
    SendFails(s, c, id, init) || SendFailsNow(Run(s, init), c, id, steps[|steps| - 1])
  }

  lemma NextKeepsAssured(s: State, c: nat, a: Answer, step: Step)
    requires Valid(s) && Assured(s, c, a)
    ensures SendFailsNow(s, c, a.id, step) || Assured(Next(s, step), c, a)
  {
    if Return(c, a.id, Some(a)) in s.returned {
      assert s.returned <= Next(s, step).returned;
    }
  }

  lemma FailingDooms(s: State, c: nat, id: int, step: Step)
    requires Valid(s) && SendFailsNow(s, c, id, step)
    ensures Doomed(Next(s, step), id)
  {
    assert Current(s) == Cleared(id);
  }

  lemma {:induction false} RunAssuresUnlessSendFails(s: State, c: nat, a: Answer, steps: seq<Step>)
    requires Valid(s) && Assured(s, c, a)
    ensures if SendFails(s, c, a.id, steps) then Doomed(Run(s, steps), a.id) else Assured(Run(s, steps), c, a)
  {
    if steps != [] {
      var init, step := steps[..|steps| - 1], steps[|steps| - 1];
      var before := Run(s, init);
      RunKeepsValid(s, init);
      RunAssuresUnlessSendFails(s, c, a, init);
      if SendFails(s, c, a.id, init) {
        NextKeepsDoomed(before, a.id, step);
      } else if SendFailsNow(before, c, a.id, step) {
        FailingDooms(before, c, a.id, step);
      } else {
        NextKeepsAssured(before, c, a, step);
      }
    }
  }

  /** The first line with the id of a call whose semaphore is clear, be the request
      out or still on its way, is what that call returns if and only if the request
      gets out, whatever else happens: no stale semaphore, later line, timeout or
      other caller takes it away. */
  lemma {:induction false} AnswerInTimeIsReturned(s: State, c: nat, text: string, steps: seq<Step>)
    requires Valid(s) && (At(s, c).Cleared? || At(s, c).Sent?) && s.waitId == s.phases[c].id && s.waitId != 0
    ensures var id, a := s.phases[c].id, Answer(s.phases[c].id, text, s.copies);
            var r := Run(Next(s, Line(id, text)), steps);
            var failed := SendFails(Next(s, Line(id, text)), c, id, steps);
            && (!failed ==> Assured(r, c, a))
            && (!failed && At(r, c) == Sent(id) ==> Next(r, TimeOut(c)) == r && At(Next(r, Wait(c)), c) == Took(id))
            && (At(r, c) !in {Cleared(id), Sent(id), Took(id)} ==>
                  (Return(c, id, Some(a)) in r.returned <==> !failed))
            && (failed ==> forall i | 0 <= i < |r.returned| :: r.returned[i].id != id)
  {
    var id := s.phases[c].id;
    var t := Next(s, Line(id, text));
    NextKeepsValid(s, Line(id, text));
    RunAssuresUnlessSendFails(t, c, Answer(id, text, s.copies), steps);
    RunKeepsValid(t, steps);
    var r := Run(t, steps);
    if At(r, c) == Sent(id) {
      NotReturnedYet(r, c);
    }
  }

  lemma NotReturnedYet(s: State, c: nat)
    requires Valid(s) && At(s, c).Sent?
    ensures forall i | 0 <= i < |s.returned| :: s.returned[i].id != At(s, c).id
  {
    assert Current(s) == At(s, c);
  }

  /** A line with the call's id that comes before the semaphore is cleared is
      lost, and the call with it: that it must come after is needed, not caution. */
  lemma {:induction false} EarlyAnswerIsLost(s: State, c: nat, text: string, steps: seq<Step>)
    requires Valid(s) && At(s, c).Armed? && s.waitId == s.phases[c].id && s.waitId != 0
    ensures var id := s.phases[c].id;
            var r := Run(Next(Next(s, Line(id, text)), Clear(c)), steps);
            forall i | 0 <= i < |r.returned| :: r.returned[i].id != id
  {
    var id := s.phases[c].id;
    NextKeepsValid(s, Line(id, text));
    NextKeepsValid(Next(s, Line(id, text)), Clear(c));
    RunKeepsDoomed(Next(Next(s, Line(id, text)), Clear(c)), id, steps);
  }
}

// The sections as the code runs them, and one whole call.
module AgentCall {
  import opened Options
  import opened AgentProtocol

  datatype Heard = Heard(id: int, text: string)

  predicate Mentions(lines: seq<Heard>, id: int) {
    exists i :: 0 <= i < |lines| && lines[i].id == id
  }

  function First(lines: seq<Heard>, id: int): (text: string)
    requires Mentions(lines, id)
  {
    if lines[0].id == id then lines[0].text
    else
      assert Mentions(lines[1..], id) by {
        var i :| 0 <= i < |lines| && lines[i].id == id;
        assert lines[1..][i - 1].id == id;
      }
      First(lines[1..], id)
  }

  /** The line that answers is the first with the id. */
  lemma {:induction false} FirstStands(lines: seq<Heard>, id: int) returns (i: nat)
    requires Mentions(lines, id)
    ensures i < |lines| && lines[i] == Heard(id, First(lines, id)) && forall k | 0 <= k < i :: lines[k].id != id
  {
    if lines[0].id == id {
      i := 0;
    } else {
      MentionsTail(lines, id);
      var k := FirstStands(lines[1..], id);
      i := k + 1;
    }
  }

  class Agent {
    var nextId: int
    var waitId: int
    var answer: Option<Answer>
    var done: bool
    var copies: nat              // numbers the copies the reader makes
    ghost var phase: Phase       // of the caller inside
    ghost var returned: seq<Return>
    ghost var freed: seq<nat>

    ghost function S(): State
      reads this
    {
      State([phase], if phase == Outside then None else Some(0), nextId, waitId, answer, done, copies,
            returned, freed)
    }

    constructor ()
      ensures S() == Init(1)
    {
      nextId, waitId, answer, done, copies := 1, 0, None, false, 0;
      phase, returned, freed := Outside, [], [];
      new;
      assert Init(1).phases == [Outside];
    }

    /** The reader task has a line with an id. */
    method HandleAnswer(h: Heard)
      modifies this`waitId, this`answer, this`done, this`copies
      ensures S() == Next(old(S()), Line(h.id, h.text))
    {
      if waitId != 0 && h.id == waitId {
        answer := Some(Answer(h.id, h.text, copies));
        copies := copies + 1;
        waitId := 0;
        done := true;
      }
    }

    // Lines that come while the caller is between two steps.
    method Hear(lines: seq<Heard>)
      modifies this`waitId, this`answer, this`done, this`copies
      ensures old(waitId) == 0 || !Mentions(lines, old(waitId)) ==> S() == old(S())
      ensures old(waitId) != 0 && Mentions(lines, old(waitId)) ==>
                && waitId == 0 && done && answer.Some?
                && answer.value.id == old(waitId) && answer.value.text == First(lines, old(waitId))
    {
      var left := lines;
      while left != []
        invariant old(waitId) == 0 ==> waitId == 0
        invariant waitId == old(waitId) ==>
                    && S() == old(S())
                    && (waitId != 0 ==>
                          && (Mentions(lines, waitId) <==> Mentions(left, waitId))
                          && (Mentions(lines, waitId) ==> First(lines, waitId) == First(left, waitId)))
        invariant waitId != old(waitId) ==>
                    && waitId == 0 && done && answer.Some? && Mentions(lines, old(waitId))
                    && answer.value.id == old(waitId) && answer.value.text == First(lines, old(waitId))
        decreases |left|
      {
        MentionsTail(left, waitId);
        HandleAnswer(left[0]);
        left := left[1..];
      }
    }

    method RegisterCall() returns (id: int)
      requires phase == Locked
      modifies this`nextId, this`waitId, this`answer, this`phase, this`freed
      ensures S() == Next(old(S()), Register(0))
      ensures id == old(nextId) && phase == Armed(id)
    {
      id := nextId;
      nextId := nextId + 1;
      waitId := id;
      if answer.Some? {
        freed := freed + [answer.value.copy];
      }
      answer := None;
      phase := Armed(id);
    }

    method ClearStale()
      requires phase.Armed?
      modifies this`done, this`phase
      ensures S() == Next(old(S()), Clear(0)) && phase == Cleared(old(phase.id))
    {
      done := false;
      phase := Cleared(phase.id);
    }

    // The wait ends with the semaphore, or with the timeout when it never came.
    method WaitDone() returns (ok: bool)
      requires phase.Sent?
      modifies this`done, this`phase
      ensures ok == old(done)
      ensures S() == Next(old(S()), if ok then Wait(0) else TimeOut(0))
      ensures phase == if ok then Took(old(phase.id)) else Failed(old(phase.id))
    {
      ok := done;
      done := false;
      phase := if ok then Took(phase.id) else Failed(phase.id);
    }

    method FinishCall(ok: bool) returns (out: Option<Answer>)
      requires if ok then phase.Took? else phase.Failed?
      modifies this`waitId, this`answer, this`phase, this`returned
      ensures S() == Next(old(S()), Finish(0)) && phase == Leaving
      ensures out == if ok then old(answer) else None
    {
      out := None;
      waitId := 0;
      if ok {
        out := answer;
        answer := None;
        returned := returned + [Return(0, phase.id, out)];
      }
      phase := Leaving;
    }

    // Up to the request: the slot is armed and the semaphore clear.
    method Ask(early: seq<Heard>, before: seq<Heard>) returns (id: int)
      requires phase == Locked && nextId >= 1
      modifies this
      ensures id == old(nextId) && nextId == id + 1 && phase == Cleared(id)
      ensures waitId == if Mentions(early, id) || Mentions(before, id) then 0 else id
      ensures done <==> !Mentions(early, id) && Mentions(before, id)
      ensures done ==> answer.Some? && answer.value.id == id && answer.value.text == First(before, id)
    {
      id := RegisterCall();
      Hear(early);
      ClearStale();
      Hear(before);
    }

    /** A whole call, with the lines that come before the stale semaphore is
        cleared, before the request is out, and before the timeout. It returns the
        first line with its id that comes once the semaphore is clear, and fails
        exactly when there is none, one came earlier, or nothing could be sent. */
    method Call(early: seq<Heard>, before: seq<Heard>, waiting: seq<Heard>, sends: bool)
      returns (ok: bool, out: Option<Answer>)
      requires phase == Outside && waitId == 0 && nextId >= 1
      modifies this
      ensures phase == Outside && waitId == 0 && nextId == old(nextId) + 1
      ensures ok <==> sends && !Mentions(early, old(nextId)) && Mentions(before + waiting, old(nextId))
      ensures ok ==> out.Some? && out.value.id == old(nextId) && out.value.text == First(before + waiting, old(nextId))
      ensures !ok ==> out == None
    {
      phase := Locked;
      var id := Ask(early, before);
      MentionsAppend(before, waiting, id);
      ok := sends;
      if ok {
        phase := Sent(id);
        Hear(waiting);
        ok := WaitDone();
      } else {
        phase := Failed(id);
      }
      out := FinishCall(ok);
      phase := Outside;
    }
  }

  lemma MentionsTail(lines: seq<Heard>, id: int)
    requires lines != []
    ensures Mentions(lines, id) <==> lines[0].id == id || Mentions(lines[1..], id)
  {
    if Mentions(lines, id) {
      var i :| 0 <= i < |lines| && lines[i].id == id;
      if i > 0 {
        assert lines[1..][i - 1].id == id;
      }
    }
    if lines[0].id == id {
      assert Mentions(lines, id);
    }
    if i :| 0 <= i < |lines[1..]| && lines[1..][i].id == id {
      assert lines[i + 1].id == id;
    }
  }

  lemma {:induction false} MentionsAppend(a: seq<Heard>, b: seq<Heard>, id: int)
    ensures Mentions(a + b, id) <==> Mentions(a, id) || Mentions(b, id)
    ensures Mentions(a, id) ==> First(a + b, id) == First(a, id)
    ensures !Mentions(a, id) && Mentions(b, id) ==> First(a + b, id) == First(b, id)
  {
    if a == [] {
      assert a + b == b;
    } else {
      MentionsTail(a, id);
      MentionsTail(a + b, id);
      assert (a + b)[1..] == a[1..] + b;
      MentionsAppend(a[1..], b, id);
    }
  }
}

// The reader task's line buffer.
module AgentLines {
  const LINE_MAX := 64 * 1024 * 6 + 1024

  datatype Framer = Framer(line: string, overflow: bool)

  // The framer and the lines it has handed on.
  datatype Framed = Framed(f: Framer, lines: seq<string>)

  const EMPTY := Framer("", false)

  function Take(r: Framed, c: char): Framed {
    var f := r.f;
    if c == '\n' then Framed(EMPTY, if f.overflow then r.lines else r.lines + [f.line])
    else if |f.line| < LINE_MAX - 1 then Framed(Framer(f.line + [c], f.overflow), r.lines)
    else Framed(Framer(f.line, true), r.lines)
  }

  function Feed(r: Framed, data: string): Framed {
    if data == [] then r else Take(Feed(r, data[..|data| - 1]), data[|data| - 1])
  }

  /** How the bytes are cut into reads makes no difference. */
  lemma {:induction false} ChunksDoNotMatter(r: Framed, a: string, b: string)
    ensures Feed(r, a + b) == Feed(Feed(r, a), b)
  {
    if b == [] {
      assert a + b == a;
    } else {
      assert (a + b)[..|a + b| - 1] == a + b[..|b| - 1];
      ChunksDoNotMatter(r, a, b[..|b| - 1]);
    }
  }

  predicate IsLine(s: string) {
    forall i | 0 <= i < |s| :: s[i] != '\n'
  }

  function Join(ls: seq<string>): string {
    if ls == [] then [] else Join(ls[..|ls| - 1]) + ls[|ls| - 1] + ['\n']
  }

  function Fitting(ls: seq<string>): seq<string> {
    if ls == [] then []
    else Fitting(ls[..|ls| - 1]) + if |ls[|ls| - 1]| <= LINE_MAX - 1 then [ls[|ls| - 1]] else []
  }

  lemma {:induction false} FeedLine(r: Framed, s: string)
    requires IsLine(s) && r.f == EMPTY
    ensures Feed(r, s).lines == r.lines
    ensures |s| <= LINE_MAX - 1 ==> Feed(r, s).f == Framer(s, false)
    ensures |s| >= LINE_MAX - 1 ==> |Feed(r, s).f.line| == LINE_MAX - 1
    ensures |s| > LINE_MAX - 1 ==> Feed(r, s).f.overflow
  {
    if s != [] {
      FeedLine(r, s[..|s| - 1]);
      assert s == s[..|s| - 1] + [s[|s| - 1]];
    }
  }

  /** The lines handed on are exactly the lines sent, in order, but for those
      that do not fit, and one that does not fit spoils no other. */
  lemma {:induction false} LinesComeBack(ls: seq<string>)
    requires forall i | 0 <= i < |ls| :: IsLine(ls[i])
    ensures Feed(Framed(EMPTY, []), Join(ls)) == Framed(EMPTY, Fitting(ls))
  {
    if ls != [] {
      var n := |ls| - 1;
      LinesComeBack(ls[..n]);
      var r := Feed(Framed(EMPTY, []), Join(ls[..n]));
      ChunksDoNotMatter(Framed(EMPTY, []), Join(ls[..n]), ls[n]);
      ChunksDoNotMatter(Framed(EMPTY, []), Join(ls[..n]) + ls[n], ['\n']);
      FeedLine(r, ls[n]);
      assert ['\n'][..0] == [];
      var full := Feed(r, ls[n]);
      assert Feed(full, ['\n']) == Take(full, '\n');
    }
  }

  // Trailing carriage returns and blanks, then only what looks like an object.
  function Trimmed(s: string): (t: string)
    ensures t <= s
    ensures t != [] ==> t[|t| - 1] != '\r' && t[|t| - 1] != ' '
    ensures forall i | |t| <= i < |s| :: s[i] == '\r' || s[i] == ' '
  {
    if s != [] && (s[|s| - 1] == '\r' || s[|s| - 1] == ' ') then Trimmed(s[..|s| - 1]) else s
  }

  class LineReader {
    const buf: array<char>
    var len: nat
    var overflow: bool
    ghost var handed: seq<string>

    ghost function F(): Framed
      reads this, buf
      requires len <= buf.Length
    {
      Framed(Framer(buf[..len], overflow), handed)
    }

    ghost predicate Valid()
      reads this, buf
    {
      buf.Length == LINE_MAX && len < LINE_MAX
    }

    constructor ()
      ensures Valid() && fresh(buf) && F() == Framed(EMPTY, [])
    {
      buf := new char[LINE_MAX](_ => '\0');
      len, overflow, handed := 0, false, [];
    }

    /** One read from the stream buffer. The lines it completes are handed on. */
    method Receive(data: string) returns (lines: seq<string>)
      requires Valid()
      modifies this, buf
      ensures Valid()
      ensures F() == Feed(old(F()), data)
      ensures handed == old(handed) + lines
    {
      lines := [];
      assert data[..0] == [];
      for i := 0 to |data|
        invariant Valid()
        invariant F() == Feed(old(F()), data[..i])
        invariant handed == old(handed) + lines
      {
        assert data[..i + 1][..i] == data[..i];
        if data[i] == '\n' {
          if !overflow {
            lines := lines + [buf[..len]];
            handed := handed + [buf[..len]];
          }
          len, overflow := 0, false;
        } else if len < LINE_MAX - 1 {
          buf[len] := data[i];
          len := len + 1;
        } else if !overflow {
          overflow := true;
        }
      }
      assert data[..|data|] == data;
    }

    /** What handle_line passes to the parser, or nothing. */
    method Accept(line: string) returns (text: string, take: bool)
      ensures text == Trimmed(line)
      ensures take <==> text != [] && text[0] == '{'
    {
      text := line;
      while text != [] && (text[|text| - 1] == '\r' || text[|text| - 1] == ' ')
        invariant text <= line && Trimmed(text) == Trimmed(line)
        decreases |text|
      {
        text := text[..|text| - 1];
      }
      take := text != [] && text[0] == '{';
    }
  }
}
