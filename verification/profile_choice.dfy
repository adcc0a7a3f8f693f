// Which profile the attached device gets, and how often a restart is made for
// it. Models the end of components/kvm_config/kvm_profiles.c.

module ProfileChoice {
  import opened Options
  import opened ProfileMatch
  import opened DeviceSettings
  import opened DeviceProfiles

  // ---- picking ----

  // The ids of the profiles there are; slot 0 is Default.
  function Slots(ps: seq<Profile>): (ids: seq<nat>)
    ensures forall i | 0 <= i < |ids| :: 1 <= ids[i] < |ps| && ps[ids[i]].used
  {
    if |ps| <= 1 then []
    else
      var n := |ps| - 1;
      Slots(ps[..n]) + if ps[n].used then [n] else []
  }

  lemma {:induction false} SlotsAscend(ps: seq<Profile>, i: nat, j: nat)
    requires i < j < |Slots(ps)|
    ensures Slots(ps)[i] < Slots(ps)[j]
  {
    var less := Slots(ps[..|ps| - 1]);
    if j < |less| {
      SlotsAscend(ps[..|ps| - 1], i, j);
    } else {
      assert less[i] < |ps| - 1;
    }
  }

  lemma {:induction false} SlotOf(ps: seq<Profile>, id: nat) returns (i: nat)
    requires 1 <= id < |ps| && ps[id].used
    ensures i < |Slots(ps)| && Slots(ps)[i] == id
  {
    var less := Slots(ps[..|ps| - 1]);
    if id < |ps| - 1 {
      i := SlotOf(ps[..|ps| - 1], id);
    } else {
      i := |less|;
    }
  }

  function RulesOf(ps: seq<Profile>, ids: seq<nat>): (rs: seq<Rule>)
    requires forall i | 0 <= i < |ids| :: ids[i] < |ps|
    ensures |rs| == |ids| && forall i | 0 <= i < |ids| :: rs[i] == ps[ids[i]].rule
  {
    seq(|ids|, i requires 0 <= i < |ids| => ps[ids[i]].rule)
  }

  function PickFor(ps: seq<Profile>, s: Seen): (id: nat)
    ensures id != 0 ==> id < |ps| && ps[id].used
  {
    var ids := Slots(ps);
    var best := Pick(RulesOf(ps, ids), s);
    if best < 0 then 0 else ids[best]
  }

  predicate FitsHere(ps: seq<Profile>, id: nat, s: Seen) {
    1 <= id < |ps| && ps[id].used && Fits(ps[id].rule, s)
  }

  /** Default is picked exactly when no rule fits; else a profile whose rule
      does. */
  lemma DefaultIsPickedExactly(ps: seq<Profile>, s: Seen)
    ensures PickFor(ps, s) == 0 <==> forall k: nat :: !FitsHere(ps, k, s)
    ensures PickFor(ps, s) != 0 ==> FitsHere(ps, PickFor(ps, s), s)
  {
    var ids := Slots(ps);
    var rules := RulesOf(ps, ids);
    PickIsBest(rules, s);
    if k: nat :| FitsHere(ps, k, s) {
      var i := SlotOf(ps, k);
      assert Fits(rules[i], s);
    } else if PickFor(ps, s) != 0 {
      assert FitsHere(ps, PickFor(ps, s), s);
      assert false;
    }
  }

  /** No rule fits better than the one picked, and none before it as well. */
  lemma PickedFitsBest(ps: seq<Profile>, s: Seen, k: nat)
    requires FitsHere(ps, k, s)
    ensures var id := PickFor(ps, s);
            && FitsHere(ps, id, s)
            && Score(ps[k].rule, s) <= Score(ps[id].rule, s)
            && (k < id ==> Score(ps[k].rule, s) < Score(ps[id].rule, s))
  {
    DefaultIsPickedExactly(ps, s);
    var ids := Slots(ps);
    var rules := RulesOf(ps, ids);
    var best := Pick(rules, s);
    PickIsBest(rules, s);
    var i := SlotOf(ps, k);
    assert rules[i] == ps[k].rule && rules[best] == ps[ids[best]].rule;
    if best < i {
      SlotsAscend(ps, best, i);
    }
  }

  // ---- fingerprints ----

  const UNKNOWN := Seen("", "", "")

  function Fingerprint(s: Seen): string {
    if s == UNKNOWN then "" else s.cecName + "|" + s.cecVendor + "|" + s.usbOs
  }

  function LastBar(fp: string): (i: int)
    ensures -1 <= i < |fp|
  {
    if fp == "" then -1 else if fp[|fp| - 1] == '|' then |fp| - 1 else LastBar(fp[..|fp| - 1])
  }

  // The part a restart does not change; "" when CEC said nothing.
  function CecPart(fp: string): string {
    var n := if LastBar(fp) < 0 then 0 else LastBar(fp);
    if fp[..n] == "|" then "" else fp[..n]
  }

  lemma {:induction false} LastBarStands(a: string, b: string)
    requires '|' !in b
    ensures LastBar(a + "|" + b) == |a|
  {
    var fp := a + "|" + b;
    if b != "" {
      assert fp[..|fp| - 1] == a + "|" + b[..|b| - 1];
      LastBarStands(a, b[..|b| - 1]);
    }
  }

  /** The part is what CEC says of the device, and nothing when it says nothing. */
  lemma CecPartIsTheCecPart(s: Seen)
    requires '|' !in s.usbOs
    ensures CecPart(Fingerprint(s)) ==
              if s.cecName == "" && s.cecVendor == "" then "" else s.cecName + "|" + s.cecVendor
  {
    var cec := s.cecName + "|" + s.cecVendor;
    if s != UNKNOWN {
      LastBarStands(cec, s.usbOs);
      assert Fingerprint(s)[..|cec|] == cec;
      assert cec == "|" <==> s.cecName == "" && s.cecVendor == "" by {
        if cec == "|" {
          assert |s.cecName| + 1 + |s.cecVendor| == 1;
        }
      }
    }
  }

  /** Two devices have the same CEC part exactly when CEC says the same of both; a
      vendor is printed in hexadecimal, so no bar is in it. */
  lemma CecPartTellsDevicesApart(a: Seen, b: Seen)
    requires '|' !in a.usbOs && '|' !in b.usbOs && '|' !in a.cecVendor && '|' !in b.cecVendor
    ensures CecPart(Fingerprint(a)) == CecPart(Fingerprint(b)) <==>
              a.cecName == b.cecName && a.cecVendor == b.cecVendor
  {
    CecPartIsTheCecPart(a);
    CecPartIsTheCecPart(b);
    LastBarStands(a.cecName, a.cecVendor);
    LastBarStands(b.cecName, b.cecVendor);
    var x, y := a.cecName + "|" + a.cecVendor, b.cecName + "|" + b.cecVendor;
    assert x != "" && y != "";
    if x == y {
      assert a.cecName == x[..LastBar(x)] && b.cecName == y[..LastBar(y)];
      assert a.cecVendor == x[LastBar(x) + 1..] && b.cecVendor == y[LastBar(y) + 1..];
    }
  }

  /** A fingerprint tells devices apart by all that is seen of them, as far as no
      bar is in the vendor and the system. */
  lemma FingerprintTellsDevicesApart(a: Seen, b: Seen)
    requires '|' !in a.usbOs && '|' !in b.usbOs && '|' !in a.cecVendor && '|' !in b.cecVendor
    ensures Fingerprint(a) == Fingerprint(b) <==> a == b
    ensures Fingerprint(a) == "" <==> a.cecName == "" && a.cecVendor == "" && a.usbOs == ""
  {
    CecPartTellsDevicesApart(a, b);
    if a != UNKNOWN && b != UNKNOWN && Fingerprint(a) == Fingerprint(b) {
      var x, y := a.cecName + "|" + a.cecVendor, b.cecName + "|" + b.cecVendor;
      LastBarStands(x, a.usbOs);
      LastBarStands(y, b.usbOs);
      assert a.usbOs == Fingerprint(a)[|x| + 1..] && b.usbOs == Fingerprint(b)[|y| + 1..];
    }
  }

  // ---- a device settles ----

  // Another source over CEC: the count of restarts starts again.
  function NewSource(m: Model, fp: string): Model {
    var cec := CecPart(fp);
    if cec != "" && m.source != "" && m.source != cec then m.(restarts := 0) else m
  }

  function Settled(m: Model, s: Seen, fp: string): Model {
    SettledTo(NewSource(m, fp), PickFor(m.profiles, s), fp)
  }

  // With id the profile that fits.
  function SettledTo(m: Model, id: nat, fp: string): Model {
    var same := m.held == fp;
    if same && m.manual then m
    else
      var n := if same then m else m.(held := fp);
      if same && id == n.active then n else Selected(n, id, false)
  }

  // What the caller is told: whether the profile changed.
  function Moves(m: Model, s: Seen, fp: string): bool {
    !(m.held == fp && m.manual) && PickFor(m.profiles, s) != m.active
  }

  lemma SettledKeepsOk(t: seq<Setting>, m: Model, s: Seen, fp: string)
    requires ModelOk(t, m)
    ensures ModelOk(t, Settled(m, s, fp))
    ensures Moves(m, s, fp) <==> Settled(m, s, fp).active != m.active
  {
    SettledToKeepsOk(t, NewSource(m, fp), PickFor(m.profiles, s), fp);
  }

  lemma SettledToKeepsOk(t: seq<Setting>, m: Model, id: nat, fp: string)
    requires ModelOk(t, m) && (id != 0 ==> id < |m.profiles| && m.profiles[id].used)
    ensures ModelOk(t, SettledTo(m, id, fp))
    ensures SettledTo(m, id, fp).active == if m.held == fp && m.manual then m.active else id
  {
  }

  /** Settling the same device twice changes nothing the second time. */
  lemma SettlingTwiceIsOnce(m: Model, s: Seen, fp: string)
    ensures var once := Settled(m, s, fp); Settled(once, s, fp) == once && !Moves(once, s, fp)
  {
    SettledToTwice(NewSource(m, fp), PickFor(m.profiles, s), fp);
  }

  lemma SettledToTwice(m: Model, id: nat, fp: string)
    requires NewSource(m, fp) == m
    ensures var once := SettledTo(m, id, fp);
            && NewSource(once, fp) == once && once.profiles == m.profiles
            && SettledTo(once, id, fp) == once
            && (!(once.held == fp && once.manual) ==> id == once.active)
  {
  }

  /** A choice by hand outlives a restart exactly when it was not Default, or the
      rules pick Default too. */
  lemma HandChoiceOutlivesARestartExactly(m: Model, s: Seen, fp: string)
    requires m.manual && m.held == fp
    ensures Settled(Booted(m), s, fp).active == m.active <==> m.active != 0 || PickFor(m.profiles, s) == 0
  {
  }

  // The profile with this id is chosen by hand, or made and put in effect.
  predicate ChoosesByHand(t: seq<Setting>, presets: seq<Preset>, m: Model, c: Call, id: nat)
    requires ModelOk(t, m)
  {
    match c
    case Select(k, byHand) => byHand && k == id && id <= MAX_PROFILES && m.profiles[id].used
    case Create(body) => Made(t, presets, m, body).Success? && Selects(body) && id == FreeId(m, 1)
    case _ => false
  }

  // The device such a choice is noted for: the one attached, but the one noted
  // before where there is none, or where the choice is in effect already.
  function NotedFor(m: Model, id: nat): string {
    if m.manual && m.active == id then m.held else if m.here != "" then m.here else m.held
  }

  lemma ChoiceIsNoted(t: seq<Setting>, presets: seq<Preset>, m: Model, c: Call, id: nat)
    requires ModelOk(t, m) && PresetsOk(presets) && ChoosesByHand(t, presets, m, c, id)
    ensures var n := DeviceProfiles.Next(t, presets, m, c);
            n.manual && n.active == id && n.held == NotedFor(m, id) && id < |n.profiles| && n.profiles[id].used
  {
    if c.Create? {
      MadeIsOk(t, presets, m, c.body);
    }
  }

  /** A choice by hand, from any state, outlives the next device that settles if and
      only if it was noted for that device or the rules pick the same. */
  lemma ChoiceOutlivesSettlingExactly(t: seq<Setting>, presets: seq<Preset>, m: Model, c: Call, id: nat,
                                      s: Seen, fp: string)
    requires ModelOk(t, m) && PresetsOk(presets) && ChoosesByHand(t, presets, m, c, id)
    ensures var n := DeviceProfiles.Next(t, presets, m, c);
            Settled(n, s, fp).active == id <==> NotedFor(m, id) == fp || PickFor(n.profiles, s) == id
  {
    ChoiceIsNoted(t, presets, m, c, id);
  }

  lemma NoRulesPickDefault(ps: seq<Profile>, s: Seen)
    requires forall id | 1 <= id < |ps| && ps[id].used :: ps[id].rule == NO_RULE
    ensures PickFor(ps, s) == 0
  {
    DefaultIsPickedExactly(ps, s);
  }

  // A profile is made for the device X, X comes, and Default is chosen by hand.
  function DefaultByHand(): seq<Call> {
    [Create([Pair("match", Object([Pair("cecName", Json.Str("X"))])), Pair("select", Flag(false))]),
     Notice("X||"),
     Select(0, true)]
  }

  const FIRST_USE := Model([], NoProfiles(), 0, false, "", "", 0, "")

  lemma {:induction false} DefaultIsHeld()
    ensures ModelOk([], FIRST_USE) && TableOk([]) && PresetsOk([])
    ensures var m := Run([], [], FIRST_USE, DefaultByHand());
            && m.manual && m.active == 0 && m.held == "X||"
            && m.profiles[1] == Profile(true, "New profile", Rule("X", "", ""), [])
  {
    var match1 := Object([Pair("cecName", Json.Str("X"))]);
    var body := [Pair("match", match1), Pair("select", Flag(false))];
    var cs := DefaultByHand();
    assert body[1..] == [Pair("select", Flag(false))] && body[1..][1..] == [];
    NothingElse(body);
    assert RuleFrom(match1) == Rule("X", "", "") by {
      NoMoreInMatch(match1.members);
    }
    assert Made([], [], FIRST_USE, body) == Success(Profile(true, "New profile", Rule("X", "", ""), []));
    var m1 := DeviceProfiles.Next([], [], FIRST_USE, cs[0]);
    NextKeepsOk([], [], FIRST_USE, cs[0]);
    RunTwo([], [], m1, cs[1], cs[2]);
    assert cs[1..] == [cs[1], cs[2]];
  }

  lemma {:induction false} NothingElse(body: seq<Pair>)
    requires |body| == 2 && body[0].key == "match" && body[1].key == "select"
    ensures Get(body, "from") == None && Get(body, "name") == None && Get(body, "set") == None
    ensures Get(body, "match") == Some(body[0].value) && Get(body, "select") == Some(body[1].value)
  {
    assert "from" != "match" && "name" != "match" && "set" != "match" && "select" != "match";
    assert "from" != "select" && "name" != "select" && "set" != "select";
    AbsentKey(body, "from");
    AbsentKey(body, "name");
    AbsentKey(body, "set");
    assert body[1..][0] == body[1];
  }

  lemma {:induction false} NoMoreInMatch(o: seq<Pair>)
    requires o == [Pair("cecName", Json.Str("X"))]
    ensures Get(o, "cecName") == Some(Json.Str("X")) && Get(o, "cecVendor") == None && Get(o, "usbOs") == None
  {
    assert "cecVendor" != "cecName" && "usbOs" != "cecName";
    AbsentKey(o, "cecVendor");
    AbsentKey(o, "usbOs");
  }

  /** From a device never used, three calls, a restart and the same device again:
      the choice of Default is undone. */
  lemma {:induction false} DefaultByHandIsForgotten()
    ensures ModelOk([], FIRST_USE) && TableOk([]) && PresetsOk([])
    ensures var m := Run([], [], FIRST_USE, DefaultByHand());
            m.manual && m.held == "X||" && Settled(Booted(m), Seen("X", "", ""), "X||").active != m.active
  {
    DefaultIsHeld();
    var m, s := Run([], [], FIRST_USE, DefaultByHand()), Seen("X", "", "");
    assert StartsWithNoCase("X", "X") && FitsHere(m.profiles, 1, s);
    DefaultIsPickedExactly(m.profiles, s);
    HandChoiceOutlivesARestartExactly(m, s, "X||");
  }

  // ---- restarts ----

  const MAX_RESTARTS := 2

  function AfterRestartAsked(m: Model): Model {
    if m.restarts >= MAX_RESTARTS then m else m.(restarts := m.restarts + 1, source := CecPart(m.here))
  }
}
