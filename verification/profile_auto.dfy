// The once-a-second step that settles devices and decides on a restart. Models
// main/profile_auto.c.
module ProfileAuto {
  import opened Options
  import opened ProfileMatch
  import opened DeviceSettings
  import opened DeviceProfiles
  import opened ProfileChoice

  const SETTLE_S := 3
  const RESTART_STILL_S := 10
  const RESTART_UPTIME_S := 20
  const CALM_UPTIME_S := 300

  const BOOT_KEYS := ["usb_pad", "usb_legacy", "edid_prof"]

  // What a reader of a number gets, with these values in effect; 0 for a key
  // that is not one.
  function IntRead(t: seq<Setting>, seen: seq<Value>, key: string): int
    requires AllInRange(t, seen)
  {
    var i := FindIndex(t, key);
    if i < 0 || !Numeric(t[i]) then 0 else seen[i].n
  }

  predicate AllInRange(t: seq<Setting>, seen: seq<Value>) {
    |seen| == |t| && forall i | 0 <= i < |t| :: InRange(t[i], seen[i])
  }

  function BootRead(t: seq<Setting>, seen: seq<Value>): (vs: seq<int>)
    requires AllInRange(t, seen)
    ensures |vs| == |BOOT_KEYS|
  {
    seq(|BOOT_KEYS|, i requires 0 <= i < |BOOT_KEYS| => IntRead(t, seen, BOOT_KEYS[i]))
  }

  /** The boot-time values are the gamepad's, the legacy pad's and the display's, in
      this order, each the value in effect of its setting. */
  lemma BootReadIs(t: seq<Setting>, seen: seq<Value>, i: nat, k: nat)
    requires AllInRange(t, seen) && TableOk(t) && k < 3 && i < |t|
    requires t[i].key == ["usb_pad", "usb_legacy", "edid_prof"][k]
    ensures |BootRead(t, seen)| == 3
    ensures t[i].kind != Kind.Str ==> seen[i] == Number(BootRead(t, seen)[k])
    ensures t[i].kind == Kind.Str ==> BootRead(t, seen)[k] == 0
  {
    var f := FindIndex(t, t[i].key);
    if f != i {
      KeysDiffer(t, f, i);
    }
  }

  // The active profile's own values, or Default's.
  function Values(t: seq<Setting>, m: Model): (vs: seq<Value>)
    requires ModelOk(t, m)
    ensures AllInRange(t, vs)
  {
    var vs := seq(|t|, i requires 0 <= i < |t| => Effective(t, m, i));
    assert forall i | 0 <= i < |t| :: InRange(t[i], vs[i]) by {
      forall i | 0 <= i < |t| ensures InRange(t[i], Effective(t, m, i)) {
        EffectiveFits(t, m, i);
      }
    }
    vs
  }

  function BootValues(t: seq<Setting>, m: Model): seq<int>
    requires ModelOk(t, m)
  {
    BootRead(t, Values(t, m))
  }

  // All but m is lost at a restart.
  datatype Auto = Auto(m: Model, last: string, acted: string, still: nat, calmDone: bool,
                       bootVals: seq<int>, bootProfile: nat)

  function Started(t: seq<Setting>, m: Model): Auto
    requires ModelOk(t, m)
  {
    Auto(m, "", "", 0, false, BootValues(t, m), m.active)
  }

  predicate AnyProfile(ps: seq<Profile>) {
    exists id :: 1 <= id < |ps| && ps[id].used
  }

  function Calmed(a: Auto, up: nat): Auto {
    if !a.calmDone && up >= CALM_UPTIME_S then a.(m := a.m.(restarts := 0), calmDone := true) else a
  }

  // The device has looked the same long enough, and was not acted on yet.
  predicate SettlesNow(a: Auto, fp: string) {
    fp == a.last && fp != "" && a.still + 1 >= SETTLE_S && fp != a.acted
  }

  // What is attached has been looked at; id is the profile that fits it.
  function Looked(a: Auto, fp: string, id: nat): Auto {
    var b := a.(m := a.m.(here := fp));
    if fp != a.last then b.(last := fp, still := 0)
    else if SettlesNow(a, fp)
    then b.(still := a.still + 1, m := SettledTo(NewSource(b.m, fp), id, fp), acted := fp)
    else b.(still := a.still + 1)
  }

  lemma LookedKeepsOk(t: seq<Setting>, a: Auto, fp: string, id: nat)
    requires ModelOk(t, a.m) && (id != 0 ==> id < |a.m.profiles| && a.m.profiles[id].used)
    ensures ModelOk(t, Looked(a, fp, id).m)
  {
    SettledToKeepsOk(t, NewSource(a.m.(here := fp), fp), id, fp);
  }

  predicate WantsRestart(boots: seq<int>, a: Auto, up: nat) {
    && a.still >= RESTART_STILL_S && up >= RESTART_UPTIME_S && !a.m.manual
    && a.m.active != a.bootProfile && boots != a.bootVals
  }

  datatype Ticked = Ticked(a: Auto, restart: bool)

  // The end of the step: the boot values taken anew, a restart asked for. What
  // readers see need not be the profile's value, so it is an argument.
  function Decided(boots: seq<int>, a: Auto, up: nat): Ticked {
    if !WantsRestart(boots, a, up) then
      Ticked(if a.m.active == a.bootProfile then a.(bootVals := boots) else a, false)
    else if a.m.restarts < MAX_RESTARTS then Ticked(a.(m := AfterRestartAsked(a.m)), true)
    else Ticked(a.(bootVals := boots, bootProfile := a.m.active), false)
  }

  function TickTo(boots: seq<int>, a: Auto, fp: string, id: nat, up: nat): Ticked {
    var b := Calmed(a, up);
    if !AnyProfile(a.m.profiles) then Ticked(b, false)
    else
      var c := Looked(b, fp, id);
      if fp != b.last then Ticked(c, false) else Decided(boots, c, up)
  }

  function Tick(boots: seq<int>, a: Auto, s: Seen, up: nat): Ticked
  {
    TickTo(boots, a, Fingerprint(s), PickFor(a.m.profiles, s), up)
  }

  lemma TickKeepsOk(t: seq<Setting>, boots: seq<int>, a: Auto, s: Seen, up: nat)
    requires ModelOk(t, a.m)
    ensures ModelOk(t, Tick(boots, a, s, up).a.m)
  {
    LookedKeepsOk(t, Calmed(a, up), Fingerprint(s), PickFor(a.m.profiles, s));
  }

  /** A restart is made only for a profile other than the one at boot, chosen by
      the rules, where readers see other boot-time values, on a device that kept
      still. */
  lemma RestartHasAReason(boots: seq<int>, a: Auto, s: Seen, up: nat)
    requires Tick(boots, a, s, up).restart
    ensures var m := Tick(boots, a, s, up).a.m;
            && m.active != a.bootProfile && !m.manual && boots != a.bootVals
            && a.still + 1 >= RESTART_STILL_S && up >= RESTART_UPTIME_S && Fingerprint(s) == a.last
            && 1 <= m.restarts <= MAX_RESTARTS
  {
  }

  // ---- exactly what a second does ----

  // Three seconds of the same device, which was not acted on yet.
  predicate Arrives(a: Auto, fp: string) {
    fp != "" && fp == a.last && a.still + 1 >= 3 && fp != a.acted
  }

  predicate HeldByHand(m: Model, fp: string) {
    m.manual && m.held == fp
  }

  /** The profile moves exactly when a device has arrived, no choice by hand is held
      for it, and the rules pick another; and then to the one they pick. */
  lemma SecondMovesTheProfileExactly(boots: seq<int>, a: Auto, s: Seen, up: nat)
    ensures var fp, n := Fingerprint(s), Tick(boots, a, s, up).a.m;
            n.active == if AnyProfile(a.m.profiles) && Arrives(a, fp) && !HeldByHand(a.m, fp)
                        then PickFor(a.m.profiles, s) else a.m.active
    ensures var fp, n := Fingerprint(s), Tick(boots, a, s, up).a;
            && (n.calmDone <==> a.calmDone || up >= 300)
            && (AnyProfile(a.m.profiles) ==>
                  && n.last == fp && n.still == (if fp == a.last then a.still + 1 else 0)
                  && n.acted == (if Arrives(a, fp) then fp else a.acted) && n.m.here == fp)
            && (!AnyProfile(a.m.profiles) ==> n == a.(m := n.m, calmDone := n.calmDone) && n.m.here == a.m.here)
    ensures var fp, n := Fingerprint(s), Tick(boots, a, s, up).a.m;
            n.manual <==> a.m.manual && !(AnyProfile(a.m.profiles) && Arrives(a, fp) && a.m.held != fp)
  {
    TickSteps(boots, a, s, up);
    LookedMoves(Calmed(a, up), Fingerprint(s), PickFor(a.m.profiles, s));
    LookedIsHere(Calmed(a, up), Fingerprint(s), PickFor(a.m.profiles, s));
  }

  lemma TickSteps(boots: seq<int>, a: Auto, s: Seen, up: nat)
    ensures var b, fp := Calmed(a, up), Fingerprint(s);
            var c := Looked(b, fp, PickFor(a.m.profiles, s));
            && Tick(boots, a, s, up) == (if !AnyProfile(a.m.profiles) then Ticked(b, false)
                                         else if fp != b.last then Ticked(c, false) else Decided(boots, c, up))
            && SameValues(b.m, a.m) && b.m.manual == a.m.manual && b.m.held == a.m.held
            && SameValues(Decided(boots, c, up).a.m, c.m) && Decided(boots, c, up).a.m.manual == c.m.manual
            && b == a.(m := b.m, calmDone := a.calmDone || up >= 300) && b.m.here == a.m.here
            && var d := Decided(boots, c, up).a;
               d == c.(m := d.m, bootVals := d.bootVals, bootProfile := d.bootProfile) && d.m.here == c.m.here
  {
  }

  predicate SameValues(m: Model, n: Model) {
    n.base == m.base && n.profiles == m.profiles && n.active == m.active
  }

  lemma LookedMoves(a: Auto, fp: string, id: nat)
    ensures var n := Looked(a, fp, id);
            && n.m.active == (if Arrives(a, fp) && !HeldByHand(a.m, fp) then id else a.m.active)
            && (n.m.manual <==> a.m.manual && !(Arrives(a, fp) && a.m.held != fp))
            && n.still == (if fp == a.last then a.still + 1 else 0) && n.last == fp
            && n.acted == (if Arrives(a, fp) then fp else a.acted) && n.calmDone == a.calmDone
            && n.bootProfile == a.bootProfile && n.bootVals == a.bootVals
  {
  }

  // The count of restarts starts again before this second decides.
  predicate CountsAgain(a: Auto, fp: string, up: nat) {
    || (up >= 300 && !a.calmDone)
    || (Arrives(a, fp) && CecPart(fp) != "" && a.m.source != "" && a.m.source != CecPart(fp))
  }

  // What a restart waits for: the device has kept still for ten seconds, twenty are
  // up, the profile is another than at boot and not chosen by hand, and readers see
  // other boot-time values than were taken.
  predicate IsDue(boots: seq<int>, a: Auto, s: Seen, up: nat) {
    var n := Tick(boots, a, s, up).a.m;
    && AnyProfile(a.m.profiles) && Fingerprint(s) == a.last && a.still + 1 >= 10 && up >= 20
    && n.active != a.bootProfile && !n.manual && boots != a.bootVals
  }

  /** A restart is made exactly when it is due and fewer than two were made since the
      count began. Due and refused, what is in effect is taken as the boot values,
      and so it is while the profile is the one at boot. */
  lemma RestartIsMadeExactly(boots: seq<int>, a: Auto, s: Seen, up: nat)
    ensures var r := Tick(boots, a, s, up);
            && (r.restart <==>
                  IsDue(boots, a, s, up) && (a.m.restarts < 2 || CountsAgain(a, Fingerprint(s), up)))
            && (r.restart ==> r.a.m.source == CecPart(Fingerprint(s)))
            && (IsDue(boots, a, s, up) && !r.restart ==> r.a.bootVals == boots && r.a.bootProfile == r.a.m.active)
            && (AnyProfile(a.m.profiles) && Fingerprint(s) == a.last && r.a.m.active == a.bootProfile ==>
                  r.a.bootVals == boots && r.a.bootProfile == a.bootProfile)
  {
    var fp, id, b := Fingerprint(s), PickFor(a.m.profiles, s), Calmed(a, up);
    TickSteps(boots, a, s, up);
    LookedMoves(b, fp, id);
    LookedCounts(b, fp, id);
    if AnyProfile(a.m.profiles) && fp == a.last {
      DecidesExactly(boots, Looked(b, fp, id), up);
      LookedIsHere(b, fp, id);
    }
  }

  lemma LookedIsHere(a: Auto, fp: string, id: nat)
    ensures Looked(a, fp, id).m.here == fp
  {
  }

  lemma DecidesExactly(boots: seq<int>, a: Auto, up: nat)
    ensures var r := Decided(boots, a, up);
            var due := a.still >= 10 && up >= 20 && !a.m.manual && a.m.active != a.bootProfile && boots != a.bootVals;
            && (r.restart <==> due && a.m.restarts < 2)
            && (r.restart ==> r.a.m.source == CecPart(a.m.here))
            && (due && !r.restart ==> r.a.bootVals == boots && r.a.bootProfile == a.m.active)
            && (a.m.active == a.bootProfile ==> r.a.bootVals == boots && r.a.bootProfile == a.bootProfile)
  {
  }

  // ---- runs ----

  // boots: what readers see of the boot values, whatever the profile says.
  datatype Event = Second(s: Seen, up: nat, boots: seq<int>) | PowerCycle | Api(call: Call)

  function Next(t: seq<Setting>, presets: seq<Preset>, a: Auto, e: Event): (b: Auto)
    requires TableOk(t) && PresetsOk(presets) && ModelOk(t, a.m)
    ensures ModelOk(t, b.m)
  {
    match e
    case Second(s, up, boots) =>
      TickKeepsOk(t, boots, a, s, up);
      var r := Tick(boots, a, s, up);
      if r.restart then Restarted(t, r.a) else r.a
    case PowerCycle => Restarted(t, a)
    case Api(call) =>
      NextKeepsOk(t, presets, a.m, call);
      if call.Boot? then Restarted(t, a) else a.(m := DeviceProfiles.Next(t, presets, a.m, call))
  }

  function Restarted(t: seq<Setting>, a: Auto): (b: Auto)
    requires ModelOk(t, a.m)
    ensures ModelOk(t, b.m)
  {
    Started(t, Booted(a.m))
  }

  function Run(t: seq<Setting>, presets: seq<Preset>, a: Auto, es: seq<Event>): (b: Auto)
    requires TableOk(t) && PresetsOk(presets) && ModelOk(t, a.m)
    ensures ModelOk(t, b.m)
    decreases |es|
  {
    if es == [] then a else Run(t, presets, Next(t, presets, a, es[0]), es[1..])
  }

  predicate Restarts(a: Auto, e: Event) {
    e.Second? && Tick(e.boots, a, e.s, e.up).restart
  }

  // The count starts again: five minutes up, another CEC source settling, or a
  // reset of the settings.
  predicate Clears(a: Auto, e: Event) {
    match e
    case Second(s, up, _) =>
      || (!a.calmDone && up >= CALM_UPTIME_S)
      || (AnyProfile(a.m.profiles) && SettlesNow(a, Fingerprint(s))
          && CecPart(Fingerprint(s)) != "" && a.m.source != "" && a.m.source != CecPart(Fingerprint(s)))
    case PowerCycle => false
    case Api(call) => call.Reset?
  }

  function RestartCount(t: seq<Setting>, presets: seq<Preset>, a: Auto, es: seq<Event>): nat
    requires TableOk(t) && PresetsOk(presets) && ModelOk(t, a.m)
    decreases |es|
  {
    if es == [] then 0
    else (if Restarts(a, es[0]) then 1 else 0) + RestartCount(t, presets, Next(t, presets, a, es[0]), es[1..])
  }

  function ClearCount(t: seq<Setting>, presets: seq<Preset>, a: Auto, es: seq<Event>): nat
    requires TableOk(t) && PresetsOk(presets) && ModelOk(t, a.m)
    decreases |es|
  {
    if es == [] then 0
    else (if Clears(a, es[0]) then 1 else 0) + ClearCount(t, presets, Next(t, presets, a, es[0]), es[1..])
  }

  // One step: the count goes up with each restart, and down only where cleared.
  lemma CountIsKept(t: seq<Setting>, presets: seq<Preset>, a: Auto, e: Event)
    requires TableOk(t) && PresetsOk(presets) && ModelOk(t, a.m) && a.m.restarts <= MAX_RESTARTS
    ensures var r := if Restarts(a, e) then 1 else 0;
            var n := Next(t, presets, a, e).m.restarts;
            && n <= MAX_RESTARTS
            && (if Clears(a, e) then n == r else n == a.m.restarts + r)
  {
    match e
    case Second(s, up, boots) => TickCounts(boots, a, s, up);
    case PowerCycle =>
    case Api(call) => NextKeepsOk(t, presets, a.m, call);
  }

  lemma TickCounts(boots: seq<int>, a: Auto, s: Seen, up: nat)
    requires a.m.restarts <= MAX_RESTARTS
    ensures var r := if Tick(boots, a, s, up).restart then 1 else 0;
            var n := Tick(boots, a, s, up).a.m.restarts;
            && n <= MAX_RESTARTS
            && (if Clears(a, Second(s, up, boots)) then n == r else n == a.m.restarts + r)
  {
    var fp, id, b := Fingerprint(s), PickFor(a.m.profiles, s), Calmed(a, up);
    LookedCounts(b, fp, id);
    DecidedCounts(boots, Looked(b, fp, id), up);
  }

  lemma LookedCounts(a: Auto, fp: string, id: nat)
    ensures var m, cec := Looked(a, fp, id).m, CecPart(fp);
            && m.source == a.m.source
            && m.restarts == if SettlesNow(a, fp) && cec != "" && a.m.source != "" && a.m.source != cec
                             then 0 else a.m.restarts
  {
  }

  lemma DecidedCounts(boots: seq<int>, a: Auto, up: nat)
    ensures var r := Decided(boots, a, up);
            && r.a.m.restarts == a.m.restarts + (if r.restart then 1 else 0)
            && (r.restart ==> a.m.restarts < MAX_RESTARTS)
  {
  }

  /** However often the device restarts, whatever is attached and whatever is
      called: between two clears of the count, at most two restarts are made for
      a profile. */
  lemma {:induction false} RestartsAreBounded(t: seq<Setting>, presets: seq<Preset>, a: Auto, es: seq<Event>)
    requires TableOk(t) && PresetsOk(presets) && ModelOk(t, a.m) && a.m.restarts <= MAX_RESTARTS
    ensures a.m.restarts + RestartCount(t, presets, a, es) <= MAX_RESTARTS * (1 + ClearCount(t, presets, a, es))
    decreases |es|
  {
    if es != [] {
      CountIsKept(t, presets, a, es[0]);
      RestartsAreBounded(t, presets, Next(t, presets, a, es[0]), es[1..]);
    }
  }

  /** Over a stretch without a clear the count is exactly the restarts made. */
  lemma {:induction false} CountIsTheRestarts(t: seq<Setting>, presets: seq<Preset>, a: Auto, es: seq<Event>)
    requires TableOk(t) && PresetsOk(presets) && ModelOk(t, a.m) && a.m.restarts <= MAX_RESTARTS
    requires ClearCount(t, presets, a, es) == 0
    ensures Run(t, presets, a, es).m.restarts == a.m.restarts + RestartCount(t, presets, a, es) <= MAX_RESTARTS
    decreases |es|
  {
    if es != [] {
      CountIsKept(t, presets, a, es[0]);
      CountIsTheRestarts(t, presets, Next(t, presets, a, es[0]), es[1..]);
    }
  }

  // ---- a choice by hand ----

  // The task runs on by itself.
  predicate NothingCalled(es: seq<Event>) {
    forall i | 0 <= i < |es| :: !es[i].Api?
  }

  // Another device settles than the one with this fingerprint, or the power goes
  // while Default is in effect.
  predicate Undoes(a: Auto, e: Event, fp: string) {
    match e
    case Second(s, _, _) => AnyProfile(a.m.profiles) && SettlesNow(a, Fingerprint(s)) && Fingerprint(s) != fp
    case PowerCycle => a.m.active == 0
    case Api(_) => false
  }

  predicate NothingUndoes(t: seq<Setting>, presets: seq<Preset>, a: Auto, es: seq<Event>, fp: string)
    requires TableOk(t) && PresetsOk(presets) && ModelOk(t, a.m)
    decreases |es|
  {
    es != [] ==> !Undoes(a, es[0], fp) && NothingUndoes(t, presets, Next(t, presets, a, es[0]), es[1..], fp)
  }

  // Chosen by hand for the device with this fingerprint.
  predicate Chosen(m: Model, id: nat, fp: string) {
    m.manual && m.active == id && m.held == fp
  }

  lemma TickHolds(boots: seq<int>, a: Auto, s: Seen, up: nat, fp: string)
    requires Chosen(a.m, a.m.active, fp) && !Undoes(a, Second(s, up, boots), fp)
    ensures var r := Tick(boots, a, s, up); Chosen(r.a.m, a.m.active, fp) && !r.restart
  {
    var b, id := Calmed(a, up), PickFor(a.m.profiles, s);
    if AnyProfile(a.m.profiles) {
      LookedHolds(b, Fingerprint(s), id, fp);
      DecidedHolds(boots, Looked(b, Fingerprint(s), id), up, fp);
    }
  }

  lemma LookedHolds(a: Auto, fp: string, id: nat, mine: string)
    requires Chosen(a.m, a.m.active, mine) && (SettlesNow(a, fp) ==> fp == mine)
    ensures Chosen(Looked(a, fp, id).m, a.m.active, mine)
  {
  }

  lemma DecidedHolds(boots: seq<int>, a: Auto, up: nat, mine: string)
    requires Chosen(a.m, a.m.active, mine)
    ensures Decided(boots, a, up).a.m == a.m && !Decided(boots, a, up).restart
  {
  }

  lemma TickUndoes(boots: seq<int>, a: Auto, s: Seen, up: nat, fp: string)
    requires Chosen(a.m, a.m.active, fp) && Undoes(a, Second(s, up, boots), fp)
    ensures !Tick(boots, a, s, up).a.m.manual
  {
    var b, id := Calmed(a, up), PickFor(a.m.profiles, s);
    LookedUndoes(b, Fingerprint(s), id);
    assert Decided(boots, Looked(b, Fingerprint(s), id), up).a.m.manual == Looked(b, Fingerprint(s), id).m.manual;
  }

  lemma LookedUndoes(a: Auto, fp: string, id: nat)
    requires SettlesNow(a, fp) && a.m.held != fp
    ensures !Looked(a, fp, id).m.manual
  {
  }

  lemma LookedStaysAutomatic(a: Auto, fp: string, id: nat)
    requires !a.m.manual
    ensures !Looked(a, fp, id).m.manual
  {
  }

  lemma {:induction false} StaysAutomatic(t: seq<Setting>, presets: seq<Preset>, a: Auto, es: seq<Event>)
    requires TableOk(t) && PresetsOk(presets) && ModelOk(t, a.m) && !a.m.manual && NothingCalled(es)
    ensures !Run(t, presets, a, es).m.manual
    decreases |es|
  {
    if es != [] {
      EventStaysAutomatic(t, presets, a, es[0]);
      StaysAutomatic(t, presets, Next(t, presets, a, es[0]), es[1..]);
    }
  }

  lemma EventStaysAutomatic(t: seq<Setting>, presets: seq<Preset>, a: Auto, e: Event)
    requires TableOk(t) && PresetsOk(presets) && ModelOk(t, a.m) && !a.m.manual && !e.Api?
    ensures !Next(t, presets, a, e).m.manual
  {
    if e.Second? {
      LookedStaysAutomatic(Calmed(a, e.up), Fingerprint(e.s), PickFor(a.m.profiles, e.s));
    }
  }

  /** Over every run without a call: a profile chosen by hand for a device is
      still that choice if and only if no other device settled, and no power went
      while it was Default; and as long as it is, nothing restarts. */
  lemma {:induction false} HandChoiceHoldsExactly(t: seq<Setting>, presets: seq<Preset>, a: Auto, es: seq<Event>,
                                                  fp: string)
    requires TableOk(t) && PresetsOk(presets) && ModelOk(t, a.m)
    requires Chosen(a.m, a.m.active, fp) && NothingCalled(es)
    ensures Chosen(Run(t, presets, a, es).m, a.m.active, fp) <==> NothingUndoes(t, presets, a, es, fp)
    ensures NothingUndoes(t, presets, a, es, fp) ==> RestartCount(t, presets, a, es) == 0
    decreases |es|
  {
    if es != [] {
      var n := Next(t, presets, a, es[0]);
      EventHolds(t, presets, a, es[0], fp);
      if Undoes(a, es[0], fp) {
        StaysAutomatic(t, presets, n, es[1..]);
      } else {
        HandChoiceHoldsExactly(t, presets, n, es[1..], fp);
      }
    }
  }

  lemma EventHolds(t: seq<Setting>, presets: seq<Preset>, a: Auto, e: Event, fp: string)
    requires TableOk(t) && PresetsOk(presets) && ModelOk(t, a.m)
    requires Chosen(a.m, a.m.active, fp) && !e.Api?
    ensures var n := Next(t, presets, a, e);
            if Undoes(a, e, fp) then !n.m.manual else Chosen(n.m, a.m.active, fp) && !Restarts(a, e)
  {
    if e.Second? {
      if Undoes(a, e, fp) {
        TickUndoes(e.boots, a, e.s, e.up, fp);
      } else {
        TickHolds(e.boots, a, e.s, e.up, fp);
      }
    }
  }

  // ---- a device that stays ----

  // The same device seen once more, not settled yet.
  lemma TickWaits(boots: seq<int>, a: Auto, s: Seen, up: nat)
    requires AnyProfile(a.m.profiles) && Fingerprint(s) == a.last && a.still + 1 < SETTLE_S
    ensures var r := Tick(boots, a, s, up);
            && !r.restart && r.a.last == a.last && r.a.still == a.still + 1 && r.a.acted == a.acted
            && SameChoice(r.a.m, a.m)
  {
  }

  predicate SameChoice(m: Model, n: Model) {
    m.profiles == n.profiles && m.active == n.active && m.manual == n.manual && m.held == n.held
  }

  lemma TickArrives(boots: seq<int>, a: Auto, s: Seen, up: nat)
    requires AnyProfile(a.m.profiles) && Fingerprint(s) != a.last
    ensures var r := Tick(boots, a, s, up);
            && !r.restart && r.a.last == Fingerprint(s) && r.a.still == 0 && r.a.acted == a.acted
            && SameChoice(r.a.m, a.m) && r.a.m.here == Fingerprint(s)
  {
  }

  lemma TickSettles(boots: seq<int>, a: Auto, s: Seen, up: nat)
    requires AnyProfile(a.m.profiles)
    requires SettlesNow(a, Fingerprint(s)) && a.still + 1 < RESTART_STILL_S
    ensures var r, fp := Tick(boots, a, s, up), Fingerprint(s);
            && !r.restart
            && r.a.m.active == (if a.m.held == fp && a.m.manual then a.m.active else PickFor(a.m.profiles, s))
  {
    var b, fp, id := Calmed(a, up), Fingerprint(s), PickFor(a.m.profiles, s);
    LookedSettles(b, fp, id);
    DecidedWaits(boots, Looked(b, fp, id), up);
  }

  lemma LookedSettles(a: Auto, fp: string, id: nat)
    requires SettlesNow(a, fp)
    ensures var b := Looked(a, fp, id);
            b.still == a.still + 1 && b.m.active == if a.m.held == fp && a.m.manual then a.m.active else id
  {
  }

  lemma DecidedWaits(boots: seq<int>, a: Auto, up: nat)
    requires a.still < RESTART_STILL_S
    ensures !Decided(boots, a, up).restart && Decided(boots, a, up).a.m == a.m
  {
  }

  // The task has not seen this one last, nor acted on it.
  predicate NewDevice(a: Auto, s: Seen) {
    Fingerprint(s) != "" && Fingerprint(s) != a.last && Fingerprint(s) != a.acted
  }

  function FourSeconds(s: Seen, ups: seq<nat>, boots: seq<seq<int>>): (es: seq<Event>)
    requires |ups| == |boots| == 4
    ensures |es| == 4
  {
    [Second(s, ups[0], boots[0]), Second(s, ups[1], boots[1]),
     Second(s, ups[2], boots[2]), Second(s, ups[3], boots[3])]
  }

  /** A new device seen four seconds in a row has the profile that fits it best,
      unless the one in effect was chosen by hand for it. */
  lemma ADeviceThatStaysGetsItsProfile(t: seq<Setting>, presets: seq<Preset>, a: Auto, s: Seen,
                                       ups: seq<nat>, boots: seq<seq<int>>)
    requires TableOk(t) && PresetsOk(presets) && ModelOk(t, a.m) && AnyProfile(a.m.profiles)
    requires NewDevice(a, s) && |ups| == |boots| == 4
    ensures Run(t, presets, a, FourSeconds(s, ups, boots)).m.active ==
              if a.m.held == Fingerprint(s) && a.m.manual then a.m.active else PickFor(a.m.profiles, s)
  {
    var e0, e1 := Second(s, ups[0], boots[0]), Second(s, ups[1], boots[1]);
    var e2, e3 := Second(s, ups[2], boots[2]), Second(s, ups[3], boots[3]);
    TickArrives(boots[0], a, s, ups[0]);
    var b := Next(t, presets, a, e0);
    TickWaits(boots[1], b, s, ups[1]);
    var c := Next(t, presets, b, e1);
    TickWaits(boots[2], c, s, ups[2]);
    var d := Next(t, presets, c, e2);
    TickSettles(boots[3], d, s, ups[3]);
    RunFour(t, presets, a, e0, e1, e2, e3);
  }

  lemma RunFour(t: seq<Setting>, presets: seq<Preset>, a: Auto, e0: Event, e1: Event, e2: Event, e3: Event)
    requires TableOk(t) && PresetsOk(presets) && ModelOk(t, a.m)
    ensures Run(t, presets, a, [e0, e1, e2, e3]) ==
              Next(t, presets, Next(t, presets, Next(t, presets, Next(t, presets, a, e0), e1), e2), e3)
  {
    assert [e0, e1, e2, e3][1..] == [e1, e2, e3] && [e1, e2, e3][1..] == [e2, e3];
    assert [e2, e3][1..] == [e3] && [e3][1..] == [];
    var b := Next(t, presets, a, e0);
    var c := Next(t, presets, b, e1);
    var d := Next(t, presets, c, e2);
    assert Run(t, presets, d, [e3]) == Next(t, presets, d, e3);
    assert Run(t, presets, c, [e2, e3]) == Run(t, presets, d, [e3]);
    assert Run(t, presets, b, [e1, e2, e3]) == Run(t, presets, c, [e2, e3]);
  }

  // ---- what a choice by hand comes to ----

  /** From any state, a profile is chosen by hand, or made and put in effect, and a
      new device then stays: the choice is left alone if and only if it was noted
      for that device or the rules pick the same. */
  lemma ChoosingByHandHoldsExactly(t: seq<Setting>, presets: seq<Preset>, a: Auto, c: Call, id: nat, s: Seen,
                                   ups: seq<nat>, boots: seq<seq<int>>)
    requires TableOk(t) && PresetsOk(presets) && ModelOk(t, a.m) && ChoosesByHand(t, presets, a.m, c, id)
    requires NewDevice(a, s) && |ups| == |boots| == 4
    ensures var b := Next(t, presets, a, Api(c));
            && Chosen(b.m, id, NotedFor(a.m, id))
            && (Run(t, presets, b, FourSeconds(s, ups, boots)).m.active == id <==>
                  NotedFor(a.m, id) == Fingerprint(s) || PickFor(b.m.profiles, s) == id)
  {
    var b := Next(t, presets, a, Api(c));
    ChoiceIsNoted(t, presets, a.m, c, id);
    if AnyProfile(b.m.profiles) {
      ADeviceThatStaysGetsItsProfile(t, presets, b, s, ups, boots);
    } else {
      assert id == 0 by {
        assert b.m.profiles[id].used;
      }
      NoRulesPickDefault(b.m.profiles, s);
      NothingToChooseFrom(t, presets, b, FourSeconds(s, ups, boots));
    }
  }

  lemma {:induction false} NothingToChooseFrom(t: seq<Setting>, presets: seq<Preset>, a: Auto, es: seq<Event>)
    requires TableOk(t) && PresetsOk(presets) && ModelOk(t, a.m) && !AnyProfile(a.m.profiles)
    requires forall i | 0 <= i < |es| :: es[i].Second?
    ensures Run(t, presets, a, es).m.active == a.m.active
    decreases |es|
  {
    if es != [] {
      NothingToChooseFrom(t, presets, Next(t, presets, a, es[0]), es[1..]);
    }
  }

  const DEVICE_X := Seen("X", "", "")
  const DEVICE_Y := Seen("Y", "", "")
  const NEW_PROFILE := Profile(true, "New profile", NO_RULE, [])

  // Making a profile with nothing asked for.
  lemma {:induction false} MakingOne(a: Auto, id: nat)
    requires TableOk([]) && PresetsOk([]) && ModelOk([], a.m) && id == FreeId(a.m, 1) != 0
    requires a.m.active != 0 ==> a.m.profiles[a.m.active].own == []
    ensures var b := Next([], [], a, Api(Create([])));
            b == a.(m := Placed(a.m, id, NEW_PROFILE, true)) && ChoosesByHand([], [], a.m, Create([]), id)
  {
    assert Made([], [], a.m, []) == Success(NEW_PROFILE);
  }

  /** The first profile ever made by hand, with a device attached all the time:
      while there was none no device was noted, so the choice is held for none, and
      four seconds later Default is back. */
  lemma {:induction false} FirstHandChoiceIsUndone(ups: seq<nat>, boots: seq<seq<int>>)
    requires |ups| == |boots| == 4
    ensures ModelOk([], FIRST_USE) && TableOk([]) && PresetsOk([])
    ensures var b := Next([], [], Started([], FIRST_USE), Api(Create([])));
            && Chosen(b.m, 1, "")
            && Run([], [], b, FourSeconds(DEVICE_X, ups, boots)).m.active == 0
  {
    var a := Started([], FIRST_USE);
    MakingOne(a, 1);
    var b := Next([], [], a, Api(Create([])));
    assert b.m.profiles[1] == NEW_PROFILE;
    NoRulesPickDefault(b.m.profiles, DEVICE_X);
    ADeviceThatStaysGetsItsProfile([], [], b, DEVICE_X, ups, boots);
  }

  // A profile is made by hand, and another with X attached.
  function MadeForX(up: nat, boots: seq<int>): seq<Event> {
    [Api(Create([])), Second(DEVICE_X, up, boots), Api(Create([]))]
  }

  predicate HeldForX(a: Auto) {
    && ModelOk([], a.m) && Chosen(a.m, 2, "X||") && a.last == "X||" && a.acted == ""
    && a.m.profiles == NoProfiles()[1 := NEW_PROFILE][2 := NEW_PROFILE]
  }

  lemma {:induction false} MadeForXIsHeld(up: nat, boots: seq<int>)
    ensures ModelOk([], FIRST_USE) && TableOk([]) && PresetsOk([])
    ensures HeldForX(Run([], [], Started([], FIRST_USE), MadeForX(up, boots)))
  {
    var a := Started([], FIRST_USE);
    var e, make := Second(DEVICE_X, up, boots), Api(Create([]));
    MakingOne(a, 1);
    MadeNextForX(Next([], [], a, make), up, boots);
    RunThree([], [], a, make, e, make);
  }

  lemma {:induction false} MadeNextForX(a: Auto, up: nat, boots: seq<int>)
    requires TableOk([]) && PresetsOk([]) && ModelOk([], a.m) && a.last == "" && a.acted == ""
    requires Chosen(a.m, 1, "") && a.m.profiles == NoProfiles()[1 := NEW_PROFILE]
    ensures HeldForX(Next([], [], Next([], [], a, Second(DEVICE_X, up, boots)), Api(Create([]))))
  {
    assert a.m.profiles[1] == NEW_PROFILE;
    TickArrives(boots, a, DEVICE_X, up);
    MakingOne(Next([], [], a, Second(DEVICE_X, up, boots)), 2);
  }

  // A new device comes, the choice in effect is made again, and the device stays.
  function ChosenAgain(id: nat, s: Seen, ups: seq<nat>, boots: seq<seq<int>>): seq<Event>
    requires |ups| == |boots| == 4
  {
    var f := FourSeconds(s, ups, boots);
    [f[0], Api(Select(id, true))] + f[1..]
  }

  lemma SelectingAgain(t: seq<Setting>, presets: seq<Preset>, a: Auto, id: nat)
    requires TableOk(t) && PresetsOk(presets) && ModelOk(t, a.m) && a.m.manual && a.m.active == id
    ensures Next(t, presets, a, Api(Select(id, true))) == a
  {
  }

  /** From any state: making the choice in effect again for a new device is no
      choice at all. When that device settles, the rules decide. */
  lemma SameChoiceAgainIsNone(t: seq<Setting>, presets: seq<Preset>, a: Auto, id: nat, s: Seen,
                              ups: seq<nat>, boots: seq<seq<int>>)
    requires TableOk(t) && PresetsOk(presets) && ModelOk(t, a.m) && AnyProfile(a.m.profiles)
    requires Chosen(a.m, id, a.m.held) && a.m.held != Fingerprint(s)
    requires NewDevice(a, s) && |ups| == |boots| == 4
    ensures Next(t, presets, a, FourSeconds(s, ups, boots)[0]).m.here == Fingerprint(s)
    ensures Run(t, presets, a, ChosenAgain(id, s, ups, boots)).m.active == PickFor(a.m.profiles, s)
  {
    var f := FourSeconds(s, ups, boots);
    TickArrives(boots[0], a, s, ups[0]);
    var b := Next(t, presets, a, f[0]);
    SelectingAgain(t, presets, b, id);
    RunSkips(t, presets, a, f[0], Api(Select(id, true)), f[1..]);
    assert [f[0]] + f[1..] == f;
    ADeviceThatStaysGetsItsProfile(t, presets, a, s, ups, boots);
  }

  /** So a profile that is made with X attached and chosen by hand again with Y
      attached gives way to Default when Y settles. */
  lemma {:induction false} SameChoiceAgainIsUndone(ups: seq<nat>, boots: seq<seq<int>>)
    requires |ups| == |boots| == 4
    ensures ModelOk([], FIRST_USE) && TableOk([]) && PresetsOk([])
    ensures var a := Run([], [], Started([], FIRST_USE), MadeForX(ups[0], boots[0]));
            HeldForX(a) && Run([], [], a, ChosenAgain(2, DEVICE_Y, ups, boots)).m.active == 0
  {
    MadeForXIsHeld(ups[0], boots[0]);
    YTakesItBack(Run([], [], Started([], FIRST_USE), MadeForX(ups[0], boots[0])), ups, boots);
  }

  lemma {:induction false} YTakesItBack(a: Auto, ups: seq<nat>, boots: seq<seq<int>>)
    requires TableOk([]) && PresetsOk([]) && HeldForX(a) && |ups| == |boots| == 4
    ensures Run([], [], a, ChosenAgain(2, DEVICE_Y, ups, boots)).m.active == 0
  {
    assert a.m.profiles[1].used;
    assert Fingerprint(DEVICE_Y) == "Y||" && "Y||"[0] != "X||"[0];
    NoRulesPickDefault(a.m.profiles, DEVICE_Y);
    SameChoiceAgainIsNone([], [], a, 2, DEVICE_Y, ups, boots);
  }

  lemma RunHead(t: seq<Setting>, presets: seq<Preset>, a: Auto, e: Event, es: seq<Event>)
    requires TableOk(t) && PresetsOk(presets) && ModelOk(t, a.m)
    ensures Run(t, presets, a, [e] + es) == Run(t, presets, Next(t, presets, a, e), es)
  {
    assert ([e] + es)[1..] == es;
  }

  lemma RunSkips(t: seq<Setting>, presets: seq<Preset>, a: Auto, e: Event, nothing: Event, es: seq<Event>)
    requires TableOk(t) && PresetsOk(presets) && ModelOk(t, a.m)
    requires var b := Next(t, presets, a, e); Next(t, presets, b, nothing) == b
    ensures Run(t, presets, a, [e, nothing] + es) == Run(t, presets, a, [e] + es)
  {
    assert [e, nothing] + es == [e] + ([nothing] + es);
    RunHead(t, presets, a, e, [nothing] + es);
    RunHead(t, presets, Next(t, presets, a, e), nothing, es);
    RunHead(t, presets, a, e, es);
  }

  lemma RunThree(t: seq<Setting>, presets: seq<Preset>, a: Auto, e0: Event, e1: Event, e2: Event)
    requires TableOk(t) && PresetsOk(presets) && ModelOk(t, a.m)
    ensures Run(t, presets, a, [e0, e1, e2]) == Next(t, presets, Next(t, presets, Next(t, presets, a, e0), e1), e2)
  {
    assert [e0, e1, e2][1..] == [e1, e2] && [e1, e2][1..] == [e2] && [e2][1..] == [];
    var b := Next(t, presets, a, e0);
    var c := Next(t, presets, b, e1);
    assert Run(t, presets, c, [e2]) == Next(t, presets, c, e2);
    assert Run(t, presets, b, [e1, e2]) == Run(t, presets, c, [e2]);
  }
}
