// What the optical drive tells a polling host about its medium. Models
// track_media, get_event_status and copy_out in components/kvm_hid/mmc.c
// (MMC-6, GET EVENT STATUS NOTIFICATION command).

module MediaEvents {

  const EV_NONE := 0
  const EV_NEW_MEDIA := 2
  const EV_MEDIA_REMOVAL := 3

  type byte = x: int | 0 <= x < 0x100

  // A medium that is not there has an id too, which means nothing.
  datatype Media = Media(present: bool, id: nat)

  predicate SameMedium(a: Media, b: Media) {
    a.present == b.present && (a.present ==> a.id == b.id)
  }

  datatype Events = Events(seen: bool, seenPresent: bool, seenId: nat, pending: byte)

  const FRESH := Events(false, false, 0, EV_NONE)

  function Track(ev: Events, m: Media): Events {
    if !ev.seen then Events(true, m.present, m.id, if m.present then EV_NEW_MEDIA else EV_NONE)
    else if m.present != ev.seenPresent || (m.present && m.id != ev.seenId)
    then Events(true, m.present, m.id, if m.present then EV_NEW_MEDIA else EV_MEDIA_REMOVAL)
    else ev
  }

  // ---- runs ----

  datatype Step =
    | Change(m: Media)           // inserted, removed or swapped
    | Ask(media: bool, cap: nat) // a poll, for the media class or not, taking cap bytes
    | NewDrive                   // the device comes back as another drive

  // told: the medium at the last poll that was answered, no medium at first.
  // looks: the medium at each poll since.
  // picture: the medium the host takes to be there, from the events it received.
  datatype World = World(m: Media, ev: Events, told: Media, looks: seq<Media>, picture: Media)

  const NO_MEDIUM := Media(false, 0)

  function Start(m: Media): World {
    World(m, FRESH, NO_MEDIUM, [], NO_MEDIUM)
  }

  // The event a poll for the media class would be answered with.
  function Code(w: World): byte {
    Track(w.ev, w.m).pending
  }

  // The reply has the event in its fifth byte.
  const EVENT_LEN := 5

  // A host that gets no event, or not its byte, goes on with what it knew.
  function Picture(w: World, cap: nat): Media {
    if cap < EVENT_LEN || Code(w) == EV_NONE then w.picture
    else if Code(w) == EV_NEW_MEDIA then w.m
    else NO_MEDIUM
  }

  function Next(w: World, step: Step): World {
    match step
    case Change(m) => w.(m := m)
    case Ask(media, cap) =>
      if media then World(w.m, Track(w.ev, w.m).(pending := EV_NONE), w.m, [], Picture(w, cap))
      else w.(ev := Track(w.ev, w.m), looks := w.looks + [w.m])
    case NewDrive => Start(w.m)
  }

  function Run(w: World, steps: seq<Step>): World {
    if steps == [] then w else Next(Run(w, steps[..|steps| - 1]), steps[|steps| - 1])
  }

  predicate AllSame(told: Media, looks: seq<Media>) {
    forall i | 0 <= i < |looks| :: SameMedium(told, looks[i])
  }

  function LastLook(w: World): Media {
    if w.looks == [] then w.told else w.looks[|w.looks| - 1]
  }

  predicate Valid(w: World) {
    && (w.ev.seen ==> SameMedium(Media(w.ev.seenPresent, w.ev.seenId), LastLook(w)))
    && (!w.ev.seen ==> w.looks == [] && !w.told.present && w.ev.pending == EV_NONE)
    && (w.ev.pending == EV_NONE <==> AllSame(w.told, w.looks))
    && (w.ev.pending != EV_NONE ==>
          w.ev.pending == if w.ev.seenPresent then EV_NEW_MEDIA else EV_MEDIA_REMOVAL)
  }

  lemma LookKeepsValid(w: World)
    requires Valid(w)
    ensures Valid(w.(ev := Track(w.ev, w.m), looks := w.looks + [w.m]))
  {
    var n := w.(ev := Track(w.ev, w.m), looks := w.looks + [w.m]);
    assert n.looks[|n.looks| - 1] == w.m;
    if AllSame(n.told, n.looks) {
      forall i | 0 <= i < |w.looks| ensures SameMedium(w.told, w.looks[i]) {
        assert n.looks[i] == w.looks[i];
      }
      assert SameMedium(w.told, LastLook(w));
    }
  }

  lemma NextKeepsValid(w: World, step: Step)
    requires Valid(w)
    ensures Valid(Next(w, step))
  {
    LookKeepsValid(w);
  }

  lemma {:induction false} RunKeepsValid(w: World, steps: seq<Step>)
    requires Valid(w)
    ensures Valid(Run(w, steps))
  {
    if steps != [] {
      RunKeepsValid(w, steps[..|steps| - 1]);
      NextKeepsValid(Run(w, steps[..|steps| - 1]), steps[|steps| - 1]);
    }
  }

  /** Over every run: a poll is answered with no event exactly when every poll
      since the last answered one, and this one, found the medium that one found;
      else with new media exactly when there is a medium. */
  lemma {:induction false} EventsAreNeverStale(first: Media, steps: seq<Step>)
    ensures var w := Run(Start(first), steps);
            && (Code(w) == EV_NONE <==> AllSame(w.told, w.looks + [w.m]))
            && (Code(w) == EV_NONE ==> SameMedium(w.told, w.m))
            && (Code(w) != EV_NONE ==> Code(w) == if w.m.present then EV_NEW_MEDIA else EV_MEDIA_REMOVAL)
  {
    var w := Run(Start(first), steps);
    RunKeepsValid(Start(first), steps);
    LookKeepsValid(w);
    assert (w.looks + [w.m])[|w.looks|] == w.m;
  }

  // A poll that finds another medium than the last one answered and does not
  // take the byte that says so.
  predicate CutsAChange(w: World, step: Step) {
    step.Ask? && step.media && step.cap < EVENT_LEN && !SameMedium(w.told, w.m)
  }

  predicate Informed(w: World) {
    SameMedium(w.picture, w.told)
  }

  lemma NextInforms(w: World, step: Step)
    requires Valid(w) && Informed(w)
    ensures Informed(Next(w, step)) <==> !CutsAChange(w, step)
  {
    LookKeepsValid(w);
    assert (w.looks + [w.m])[|w.looks|] == w.m;
  }

  predicate AlwaysInformed(w: World, steps: seq<Step>) {
    Informed(Run(w, steps)) && (steps != [] ==> AlwaysInformed(w, steps[..|steps| - 1]))
  }

  predicate NeverCut(w: World, steps: seq<Step>) {
    steps != [] ==>
      var init := steps[..|steps| - 1];
      NeverCut(w, init) && !CutsAChange(Run(w, init), steps[|steps| - 1])
  }

  /** Over every run: the host's picture is right after every step exactly when
      each poll that found another medium took the byte that says so. */
  lemma {:induction false} HostIsInformedExactly(first: Media, steps: seq<Step>)
    ensures AlwaysInformed(Start(first), steps) <==> NeverCut(Start(first), steps)
  {
    if steps != [] {
      var init := steps[..|steps| - 1];
      HostIsInformedExactly(first, init);
      RunKeepsValid(Start(first), init);
      if AlwaysInformed(Start(first), init) {
        NextInforms(Run(Start(first), init), steps[|steps| - 1]);
      }
    }
  }

  predicate OnlyPolls(steps: seq<Step>) {
    forall i | 0 <= i < |steps| :: steps[i].Ask?
  }

  /** After such a poll no later one tells, for as long as the medium stays. */
  lemma {:induction false} CutChangeStaysUnseen(w: World, step: Step, polls: seq<Step>)
    requires Valid(w) && Informed(w) && CutsAChange(w, step) && OnlyPolls(polls)
    ensures var n := Run(Next(w, step), polls);
            && Code(n) == EV_NONE && n.picture == w.picture && !SameMedium(n.picture, n.m)
  {
    var n := Next(w, step);
    NextKeepsValid(w, step);
    if polls != [] {
      var init := polls[..|polls| - 1];
      CutChangeStaysUnseen(w, step, init);
      NextKeepsQuiet(Run(n, init), polls[|polls| - 1]);
    }
  }

  lemma NextKeepsQuiet(w: World, step: Step)
    requires step.Ask? && Code(w) == EV_NONE
    ensures var n := Next(w, step); Code(n) == EV_NONE && n.picture == w.picture && n.m == w.m
  {
  }

  /** A change back and forth that no poll saw is not reported. */
  lemma UnseenSwapIsSilent(w: World, other: Media)
    requires Valid(w) && w.looks == [] && w.ev.seen && SameMedium(w.told, w.m)
    ensures Code(Run(w, [Change(other), Change(w.m)])) == EV_NONE
  {
    assert [Change(other), Change(w.m)][..1] == [Change(other)];
    assert [Change(other)][..0] == [];
    assert Run(w, [Change(other)]) == w.(m := other);
  }

  // ---- the reply ----

  class Drive {
    var seen: bool
    var seenPresent: bool
    var seenId: nat
    var pending: byte

    function E(): Events
      reads this
    {
      Events(seen, seenPresent, seenId, pending)
    }

    constructor ()
      ensures E() == FRESH
    {
      seen, seenPresent, seenId, pending := false, false, 0, EV_NONE;
    }

    method TrackMedia(m: Media)
      modifies this
      ensures E() == Track(old(E()), m)
    {
      if !seen {
        seen := true;
        seenPresent := m.present;
        seenId := m.id;
        pending := if m.present then EV_NEW_MEDIA else EV_NONE;
        return;
      }
      if m.present != seenPresent || (m.present && m.id != seenId) {
        pending := if m.present then EV_NEW_MEDIA else EV_MEDIA_REMOVAL;
        seenPresent := m.present;
        seenId := m.id;
      }
    }

    // As much of the reply as the host asked for.
    method CopyOut(out: array<byte>, cap: nat, r: seq<byte>) returns (n: nat)
      requires cap <= out.Length
      modifies out
      ensures n == (if |r| < cap then |r| else cap)
      ensures out[..n] == r[..n]
    {
      n := if |r| < cap then |r| else cap;
      forall i | 0 <= i < n {
        out[i] := r[i];
      }
    }

    /** @return the reply's length, or -1 for the asynchronous kind. The host has
        seen the event only if it took five bytes, and it is over either way. */
    method GetEventStatus(cdb: seq<byte>, m: Media, out: array<byte>, cap: nat) returns (len: int)
      requires |cdb| == 16 && cap <= out.Length
      modifies this, out
      ensures cdb[1] % 2 == 0 ==> len == -1 && E() == old(E()) && out[..] == old(out[..])
      ensures cdb[1] % 2 == 1 && cdb[4] / 16 % 2 == 0 ==>
                && E() == Track(old(E()), m)
                && len == (if 4 < cap then 4 else cap)
                && out[..len] == [0, 2, 0x80, 0x10][..len]
      ensures cdb[1] % 2 == 1 && cdb[4] / 16 % 2 == 1 ==>
                && E() == Track(old(E()), m).(pending := EV_NONE)
                && len == (if 8 < cap then 8 else cap)
                && out[..len] == [0, 6, 4, 0x10, Track(old(E()), m).pending, if m.present then 2 else 0, 0, 0][..len]
    {
      if cdb[1] % 2 == 0 {
        return -1;
      }
      TrackMedia(m);
      if cdb[4] / 16 % 2 == 0 {
        len := CopyOut(out, cap, [0, 2, 0x80, 0x10]);
        return;
      }
      var r: seq<byte> := [0, 6, 4, 0x10, pending, if m.present then 2 else 0, 0, 0];
      pending := EV_NONE;
      len := CopyOut(out, cap, r);
    }
  }
}
