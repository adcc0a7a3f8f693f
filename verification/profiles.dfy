// Device profiles and the calls that change them, with what is in effect
// looked up rather than cached. Models components/kvm_config/kvm_profiles.c.

module DeviceProfiles {
  import opened Options
  import opened ProfileMatch
  import opened DeviceSettings

  datatype Profile = Profile(used: bool, name: string, rule: Rule, own: seq<Pair>)

  datatype Preset = Preset(id: string, name: string, rule: Rule, own: seq<Pair>)

  // base holds Default's values; slot 0 of profiles is Default, a name only.
  // held is the last device acted on, here the one attached; restarts counts
  // the restarts made for a profile, source is the CEC source of the last.
  datatype Model = Model(base: seq<Value>, profiles: seq<Profile>, active: nat, manual: bool,
                         held: string, here: string, restarts: nat, source: string)

  datatype Result<T> = Success(value: T) | Failure(err: Err)

  const NO_RULE := Rule("", "", "")
  const UNUSED := Profile(false, "", NO_RULE, [])
  const DEFAULT_PROFILE := Profile(true, "Default", NO_RULE, [])

  function NoProfiles(): (ps: seq<Profile>)
    ensures |ps| == MAX_PROFILES + 1 && ps[0] == DEFAULT_PROFILE
    ensures forall i | 1 <= i <= MAX_PROFILES :: ps[i] == UNUSED
  {
    seq(MAX_PROFILES + 1, i => if i == 0 then DEFAULT_PROFILE else UNUSED)
  }

  function Defaults(t: seq<Setting>): (vs: seq<Value>)
    ensures |vs| == |t| && forall i | 0 <= i < |t| :: vs[i] == DefaultOf(t[i])
  {
    seq(|t|, i requires 0 <= i < |t| => DefaultOf(t[i]))
  }

  // ---- what is in effect ----

  // The value a profile's own set gives setting d, if it fits.
  function Own(d: Setting, o: seq<Pair>): Option<Value> {
    var j := Get(o, d.key);
    if d.perProfile && j.Some? && StoredOk(d, j.value) then Some(ValueOf(j.value)) else None
  }

  function Effective(t: seq<Setting>, m: Model, i: nat): Value
    requires i < |t| && i < |m.base| && m.active < |m.profiles|
  {
    var own := Own(t[i], m.profiles[m.active].own);
    if m.active != 0 && own.Some? then own.value else m.base[i]
  }

  predicate ProfileOk(p: Profile) {
    && |p.name| <= NAME_LEN
    && |p.rule.cecName| <= 15 && |p.rule.cecVendor| <= 7 && |p.rule.usbOs| <= 11
  }

  predicate ModelOk(t: seq<Setting>, m: Model) {
    && |m.base| == |t| && (forall i | 0 <= i < |t| :: InRange(t[i], m.base[i]))
    && |m.profiles| == MAX_PROFILES + 1 && m.profiles[0] == DEFAULT_PROFILE
    && (forall i | 0 <= i <= MAX_PROFILES :: ProfileOk(m.profiles[i]))
    && m.active <= MAX_PROFILES && m.profiles[m.active].used
    && (forall i | 0 <= i <= MAX_PROFILES && !m.profiles[i].used :: m.profiles[i] == UNUSED)
  }

  ghost predicate Clean(m: Model) {
    forall i | 0 <= i < |m.profiles| :: NoRepeats(m.profiles[i].own)
  }

  /** Whatever a profile holds, what is in effect is in range. */
  lemma {:induction false} EffectiveFits(t: seq<Setting>, m: Model, i: nat)
    requires ModelOk(t, m) && i < |t|
    ensures InRange(t[i], Effective(t, m, i))
  {
  }

  // ---- reading a request ----

  function Cut(s: string, n: nat): (r: string)
    ensures |r| <= n && (|s| <= n ==> r == s)
  {
    if |s| <= n then s else s[..n]
  }

  function StringIn(j: Json, key: string): string {
    var v := GetIn(j, key);
    if v.Some? && v.value.Str? then v.value.s else ""
  }

  function RuleFrom(j: Json): Rule {
    Rule(Cut(StringIn(j, "cecName"), 15), Cut(StringIn(j, "cecVendor"), 7), Cut(StringIn(j, "usbOs"), 11))
  }

  // None is refused.
  function NameFrom(body: seq<Pair>, otherwise: string): (r: Option<string>)
    ensures r.Some? && |otherwise| <= NAME_LEN ==> |r.value| <= NAME_LEN
  {
    var n := Get(body, "name");
    if n.None? then Some(otherwise)
    else if !n.value.Str? || n.value.s == "" || |n.value.s| > NAME_LEN then None
    else Some(n.value.s)
  }

  function RuleIn(body: seq<Pair>, otherwise: Rule): Rule {
    var m := Get(body, "match");
    if m.Some? then RuleFrom(m.value) else otherwise
  }

  function FromIn(body: seq<Pair>): string {
    var f := Get(body, "from");
    if f.Some? && f.value.Str? then f.value.s else "current"
  }

  function FindPreset(presets: seq<Preset>, id: string): (r: Option<Preset>)
    ensures r.Some? ==> r.value in presets && r.value.id == id
    ensures r.None? ==> forall p | p in presets :: p.id != id
  {
    if presets == [] then None
    else if presets[0].id == id then Some(presets[0]) else FindPreset(presets[1..], id)
  }

  predicate PresetsOk(presets: seq<Preset>) {
    forall p | p in presets :: ProfileOk(Profile(true, p.name, p.rule, []))
  }

  // The first slot without a profile, 0 without one.
  function FreeId(m: Model, from: nat): (id: nat)
    requires |m.profiles| == MAX_PROFILES + 1 && 1 <= from <= MAX_PROFILES + 1
    ensures id == 0 || (from <= id <= MAX_PROFILES && !m.profiles[id].used)
    ensures forall k | from <= k <= MAX_PROFILES && (id == 0 || k < id) :: m.profiles[k].used
    decreases MAX_PROFILES + 1 - from
  {
    if from > MAX_PROFILES then 0 else if !m.profiles[from].used then from else FreeId(m, from + 1)
  }

  // ---- the calls ----

  function Put(t: seq<Setting>, m: Model, i: nat, v: Value): Model
    requires ModelOk(t, m) && i < |t|
  {
    if m.active != 0 && t[i].perProfile then
      var p := m.profiles[m.active];
      m.(profiles := m.profiles[m.active := p.(own := DeviceSettings.Store(p.own, t[i].key, Kept(v)))])
    else m.(base := m.base[i := v])
  }

  // The values a request adds to a new profile.
  function Extra(t: seq<Setting>, body: seq<Pair>): Option<seq<Pair>> {
    var own := Get(body, "set");
    if own.None? then Some([]) else Merged(t, [], own.value)
  }

  function StartSet(t: seq<Setting>, preset: Option<Preset>): Option<seq<Pair>> {
    if preset.None? then Some([]) else Merged(t, [], Object(preset.value.own))
  }

  function Made(t: seq<Setting>, presets: seq<Preset>, m: Model, body: seq<Pair>): (r: Result<Profile>)
    requires ModelOk(t, m)
  {
    var from := FromIn(body);
    var preset := if from == "current" || from == "empty" then None else FindPreset(presets, from);
    if from != "current" && from != "empty" && preset.None? then Failure(NotFound)
    else
      var start := StartSet(t, preset);
      var name := NameFrom(body, if preset.Some? then preset.value.name else "New profile");
      var extra := Extra(t, body);
      if start.None? || name.None? || extra.None? then Failure(InvalidArg)
      else if FreeId(m, 1) == 0 then Failure(NoMem)
      else
        var vs := if from == "current" && m.active != 0 then m.profiles[m.active].own else start.value;
        var rule := RuleIn(body, if preset.Some? then preset.value.rule else NO_RULE);
        Success(Profile(true, name.value, rule, Overlaid(vs, extra.value)))
  }

  predicate Selects(body: seq<Pair>) {
    Get(body, "select") != Some(Flag(false))
  }

  function HeldFor(m: Model): string {
    if m.here != "" then m.here else m.held
  }

  function Placed(m: Model, id: nat, p: Profile, select: bool): Model
    requires id < |m.profiles|
  {
    var ps := m.profiles[id := p];
    if select then m.(profiles := ps, active := id, manual := true, held := HeldFor(m)) else m.(profiles := ps)
  }

  function StringsOf(items: seq<Json>): seq<Pair> {
    if items == [] then []
    else (if items[0].Str? then [Pair(items[0].s, Null)] else []) + StringsOf(items[1..])
  }

  // Profile p as a request changes it.
  function Changed(t: seq<Setting>, p: Profile, body: seq<Pair>): Result<Profile> {
    var name := NameFrom(body, p.name);
    var given, unset := Get(body, "set"), Get(body, "unset");
    var merged := if given.None? then Some(p.own) else Merged(t, p.own, given.value);
    if name.None? || merged.None? || (unset.Some? && !unset.value.List?) then Failure(InvalidArg)
    else
      var left := if unset.Some? then DropAll(merged.value, StringsOf(unset.value.items)) else merged.value;
      Success(Profile(p.used, name.value, RuleIn(body, p.rule), left))
  }

  function Deleted(m: Model, id: nat): Model
    requires id < |m.profiles|
  {
    var ps := m.profiles[id := UNUSED];
    if id == m.active then m.(profiles := ps, active := 0, manual := false) else m.(profiles := ps)
  }

  function Selected(m: Model, id: nat, manual: bool): Model {
    if id == m.active && manual == m.manual then m
    else m.(active := id, manual := manual, held := if manual then HeldFor(m) else m.held)
  }

  function WithoutAll(t: seq<Setting>, m: Model): Model {
    Model(Defaults(t), NoProfiles(), 0, false, "", m.here, 0, "")
  }

  // What a restart leaves: a choice of Default by hand is not remembered as one.
  function Booted(m: Model): Model {
    m.(manual := m.manual && m.active != 0, here := "")
  }

  // ---- runs ----

  datatype Call =
    | SetValue(i: nat, v: Value)
    | Create(body: seq<Pair>)
    | Update(id: nat, body: seq<Pair>)
    | Delete(id: nat)
    | Select(id: nat, manual: bool)
    | Reset
    | Boot
    | Notice(fp: string)

  function Next(t: seq<Setting>, presets: seq<Preset>, m: Model, c: Call): Model
    requires ModelOk(t, m)
  {
    match c
    case SetValue(i, v) => if i < |t| && InRange(t[i], v) && Effective(t, m, i) != v then Put(t, m, i, v) else m
    case Create(body) =>
      var made := Made(t, presets, m, body);
      if made.Success? then Placed(m, FreeId(m, 1), made.value, Selects(body)) else m
    case Update(id, body) =>
      if id < 1 || id > MAX_PROFILES || !m.profiles[id].used then m
      else
        var changed := Changed(t, m.profiles[id], body);
        if changed.Success? then m.(profiles := m.profiles[id := changed.value]) else m
    case Delete(id) => if 1 <= id <= MAX_PROFILES && m.profiles[id].used then Deleted(m, id) else m
    case Select(id, manual) => if id <= MAX_PROFILES && m.profiles[id].used then Selected(m, id, manual) else m
    case Reset => WithoutAll(t, m)
    case Boot => Booted(m)
    case Notice(fp) => m.(here := fp)
  }

  lemma {:induction false} PutKeepsOk(t: seq<Setting>, m: Model, i: nat, v: Value)
    requires ModelOk(t, m) && i < |t| && InRange(t[i], v)
    ensures ModelOk(t, Put(t, m, i, v))
  {
  }

  lemma {:induction false} DefaultsFit(t: seq<Setting>)
    requires TableOk(t)
    ensures forall i | 0 <= i < |t| :: InRange(t[i], Defaults(t)[i])
  {
    EveryRowIsOk(t, |t|);
    forall i | 0 <= i < |t| ensures InRange(t[i], Defaults(t)[i]) {
      assert RowOk(t, i);
    }
  }

  lemma {:induction false} MadeIsOk(t: seq<Setting>, presets: seq<Preset>, m: Model, body: seq<Pair>)
    requires ModelOk(t, m) && PresetsOk(presets)
    ensures var made := Made(t, presets, m, body); made.Success? ==> made.value.used && ProfileOk(made.value)
  {
    var from := FromIn(body);
    if from != "current" && from != "empty" {
      var p := FindPreset(presets, from);
      assert p.Some? ==> ProfileOk(Profile(true, p.value.name, p.value.rule, []));
    }
  }

  lemma {:induction false} ChangedIsOk(t: seq<Setting>, p: Profile, body: seq<Pair>)
    requires ProfileOk(p)
    ensures var c := Changed(t, p, body); c.Success? ==> c.value.used == p.used && ProfileOk(c.value)
  {
  }

  lemma {:induction false} NextKeepsOk(t: seq<Setting>, presets: seq<Preset>, m: Model, c: Call)
    requires TableOk(t) && PresetsOk(presets) && ModelOk(t, m)
    ensures ModelOk(t, Next(t, presets, m, c))
  {
    match c
    case SetValue(i, v) =>
      if i < |t| && InRange(t[i], v) {
        PutKeepsOk(t, m, i, v);
      }
    case Create(body) =>
      MadeIsOk(t, presets, m, body);
      var made := Made(t, presets, m, body);
      if made.Success? {
        PlacedKeepsOk(t, m, FreeId(m, 1), made.value, Selects(body));
      }
    case Update(id, body) =>
      if 1 <= id <= MAX_PROFILES && m.profiles[id].used {
        ChangedIsOk(t, m.profiles[id], body);
        var changed := Changed(t, m.profiles[id], body);
        if changed.Success? {
          PlacedKeepsOk(t, m, id, changed.value, false);
        }
      }
    case Delete(id) =>
      if 1 <= id <= MAX_PROFILES {
        DeletedKeepsOk(t, m, id);
      }
    case Reset => DefaultsFit(t);
    case _ =>
  }

  lemma {:induction false} DeletedKeepsOk(t: seq<Setting>, m: Model, id: nat)
    requires ModelOk(t, m) && 1 <= id <= MAX_PROFILES
    ensures ModelOk(t, Deleted(m, id))
  {
  }

  lemma {:induction false} PlacedKeepsOk(t: seq<Setting>, m: Model, id: nat, p: Profile, select: bool)
    requires ModelOk(t, m) && 1 <= id <= MAX_PROFILES && p.used && ProfileOk(p)
    ensures ModelOk(t, Placed(m, id, p, select))
  {
  }

  function Run(t: seq<Setting>, presets: seq<Preset>, m: Model, cs: seq<Call>): (r: Model)
    requires TableOk(t) && PresetsOk(presets) && ModelOk(t, m)
    ensures ModelOk(t, r)
    decreases |cs|
  {
    if cs == [] then m
    else
      NextKeepsOk(t, presets, m, cs[0]);
      Run(t, presets, Next(t, presets, m, cs[0]), cs[1..])
  }

  /** After any calls, every value in effect is in its declared range. */
  lemma {:induction false} EveryRunStaysInRange(t: seq<Setting>, presets: seq<Preset>, m: Model, cs: seq<Call>, i: nat)
    requires TableOk(t) && PresetsOk(presets) && ModelOk(t, m) && i < |t|
    ensures InRange(t[i], Effective(t, Run(t, presets, m, cs), i))
  {
    EffectiveFits(t, Run(t, presets, m, cs), i);
  }

  // ---- what the calls mean for the values in effect ----

  predicate ToProfile(t: seq<Setting>, m: Model, i: nat)
    requires i < |t|
  {
    m.active != 0 && t[i].perProfile
  }

  lemma {:induction false} PutMovesNoOther(t: seq<Setting>, m: Model, i: nat, v: Value, j: nat)
    requires TableOk(t) && ModelOk(t, m) && i < |t| && j < |t| && j != i
    ensures Effective(t, Put(t, m, i, v), j) == Effective(t, m, j)
  {
    if ToProfile(t, m, i) {
      StoreKeepsOthers(m.profiles[m.active].own, t[i].key, Kept(v), t[j].key);
      KeysDiffer(t, i, j);
    }
  }

  /** Setting one value moves no other, and takes effect whenever the profile
      does not hold the key twice. */
  lemma {:induction false} PutTakesEffect(t: seq<Setting>, m: Model, i: nat, v: Value, j: nat)
    requires TableOk(t) && ModelOk(t, m) && i < |t| && j < |t| && InRange(t[i], v)
    ensures j != i ==> Effective(t, Put(t, m, i, v), j) == Effective(t, m, j)
    ensures !ToProfile(t, m, i) || Count(m.profiles[m.active].own, t[i].key) <= 1 ==>
              Effective(t, Put(t, m, i, v), i) == v
  {
    if j != i {
      PutMovesNoOther(t, m, i, v, j);
    }
    if ToProfile(t, m, i) {
      StoredValueIsLookedUp(m.profiles[m.active].own, t[i].key);
      KeptIsStored(t[i], v);
    } else if m.active != 0 {
      assert Own(t[i], m.profiles[m.active].own) == None;
    }
  }

  /** Exactly then, for a setting with more than one value. */
  lemma {:induction false} SettingHoldsExactly(t: seq<Setting>, m: Model, i: nat)
    requires TableOk(t) && ModelOk(t, m) && i < |t|
    requires exists v, w :: InRange(t[i], v) && InRange(t[i], w) && v != w
    ensures (forall v | InRange(t[i], v) :: Effective(t, Put(t, m, i, v), i) == v)
            <==> (!ToProfile(t, m, i) || Count(m.profiles[m.active].own, t[i].key) <= 1)
  {
    if !ToProfile(t, m, i) || Count(m.profiles[m.active].own, t[i].key) <= 1 {
      forall v | InRange(t[i], v) ensures Effective(t, Put(t, m, i, v), i) == v {
        PutTakesEffect(t, m, i, v, i);
      }
    } else {
      var v, w :| InRange(t[i], v) && InRange(t[i], w) && v != w;
      PutHidden(t, m, i, v);
      PutHidden(t, m, i, w);
    }
  }

  lemma {:induction false} PutHidden(t: seq<Setting>, m: Model, i: nat, v: Value)
    requires ModelOk(t, m) && i < |t| && InRange(t[i], v)
    requires ToProfile(t, m, i) && Count(m.profiles[m.active].own, t[i].key) > 1
    ensures var own := Own(t[i], Drop(m.profiles[m.active].own, t[i].key));
            Effective(t, Put(t, m, i, v), i) == if own.Some? then own.value else m.base[i]
  {
    var o := m.profiles[m.active].own;
    CountOfDrop(o, t[i].key, t[i].key);
    CountIsGet(Drop(o, t[i].key), t[i].key);
    GetOfTwo(Drop(o, t[i].key), [Pair(t[i].key, Kept(v))], t[i].key);
  }

  // The value looked up once the first of a setting's key is gone.
  function Behind(t: seq<Setting>, m: Model, i: nat): Value
    requires ModelOk(t, m) && i < |t|
  {
    var own := Own(t[i], Drop(m.profiles[m.active].own, t[i].key));
    if own.Some? then own.value else m.base[i]
  }

  // What a call sets goes to Default, or to a profile that holds the key at most
  // once, or holds the same value again behind the first.
  predicate TakesHold(t: seq<Setting>, m: Model, c: Call)
    requires ModelOk(t, m)
  {
    c.SetValue? && c.i < |t| && InRange(t[c.i], c.v) && Effective(t, m, c.i) != c.v && ToProfile(t, m, c.i) ==>
      Count(m.profiles[m.active].own, t[c.i].key) <= 1 || Behind(t, m, c.i) == c.v
  }

  /** Exactly then the value set is the one looked up. */
  lemma {:induction false} TakesHoldExactly(t: seq<Setting>, m: Model, i: nat, v: Value)
    requires TableOk(t) && ModelOk(t, m) && i < |t| && InRange(t[i], v) && Effective(t, m, i) != v
    ensures Effective(t, Put(t, m, i, v), i) == v <==> TakesHold(t, m, SetValue(i, v))
  {
    if ToProfile(t, m, i) && Count(m.profiles[m.active].own, t[i].key) > 1 {
      PutHidden(t, m, i, v);
    } else {
      PutTakesEffect(t, m, i, v, i);
    }
  }

  predicate AllTakeHold(t: seq<Setting>, presets: seq<Preset>, m: Model, cs: seq<Call>)
    requires TableOk(t) && PresetsOk(presets) && ModelOk(t, m)
    decreases |cs|
  {
    cs != [] ==>
      && TakesHold(t, m, cs[0])
      && (NextKeepsOk(t, presets, m, cs[0]);
          AllTakeHold(t, presets, Next(t, presets, m, cs[0]), cs[1..]))
  }

  /** While a profile of one's own is active, nothing but a reset touches
      Default's values of the settings a profile may hold. */
  lemma {:induction false} CustomShieldsDefault(t: seq<Setting>, presets: seq<Preset>, m: Model, c: Call, i: nat)
    requires TableOk(t) && PresetsOk(presets) && ModelOk(t, m) && i < |t|
    requires m.active != 0 && t[i].perProfile && !c.Reset?
    ensures Next(t, presets, m, c).base[i] == m.base[i]
  {
    NextKeepsOk(t, presets, m, c);
  }

  predicate StaysCustom(t: seq<Setting>, presets: seq<Preset>, m: Model, cs: seq<Call>)
    requires TableOk(t) && PresetsOk(presets) && ModelOk(t, m)
    decreases |cs|
  {
    FirstStepKeepsOk(t, presets, m, cs);
    cs != [] ==>
      && m.active != 0 && !cs[0].Reset?
      && StaysCustom(t, presets, Next(t, presets, m, cs[0]), cs[1..])
  }

  lemma {:induction false} FirstStepKeepsOk(t: seq<Setting>, presets: seq<Preset>, m: Model, cs: seq<Call>)
    requires TableOk(t) && PresetsOk(presets) && ModelOk(t, m)
    ensures cs != [] ==> ModelOk(t, Next(t, presets, m, cs[0]))
  {
    if cs != [] {
      NextKeepsOk(t, presets, m, cs[0]);
    }
  }

  lemma {:induction false} CustomRunShieldsDefault(t: seq<Setting>, presets: seq<Preset>, m: Model, cs: seq<Call>,
                                                          i: nat)
    requires TableOk(t) && PresetsOk(presets) && ModelOk(t, m) && i < |t| && t[i].perProfile
    requires StaysCustom(t, presets, m, cs)
    ensures Run(t, presets, m, cs).base[i] == m.base[i]
    decreases |cs|
  {
    if cs != [] {
      NextKeepsOk(t, presets, m, cs[0]);
      CustomShieldsDefault(t, presets, m, cs[0], i);
      CustomRunShieldsDefault(t, presets, Next(t, presets, m, cs[0]), cs[1..], i);
    }
  }

  /** Going to another profile and back leaves every value as it was. */
  lemma {:induction false} ThereAndBack(t: seq<Setting>, presets: seq<Preset>, m: Model, id: nat, a: bool, b: bool,
                                               i: nat)
    requires TableOk(t) && PresetsOk(presets) && ModelOk(t, m) && i < |t|
    ensures Effective(t, Run(t, presets, m, [Select(id, a), Select(m.active, b)]), i) == Effective(t, m, i)
  {
    RunTwo(t, presets, m, Select(id, a), Select(m.active, b));
  }

  /** A new profile made from the current one changes nothing until it is given
      values of its own. */
  lemma {:induction false} ACopyChangesNothing(t: seq<Setting>, presets: seq<Preset>, m: Model, body: seq<Pair>, i: nat)
    requires TableOk(t) && PresetsOk(presets) && ModelOk(t, m) && i < |t|
    requires FromIn(body) == "current" && Get(body, "set") == None
    ensures Effective(t, Next(t, presets, m, Create(body)), i) == Effective(t, m, i)
    ensures Made(t, presets, m, body).Success? <==> NameFrom(body, "").Some? && FreeId(m, 1) != 0
  {
    NextKeepsOk(t, presets, m, Create(body));
    assert Overlaid(m.profiles[m.active].own, []) == m.profiles[m.active].own;
  }

  /** Deleting the profile in effect brings Default's values back, deleting
      another changes none. */
  lemma {:induction false} DeletingBringsDefaultBack(t: seq<Setting>, presets: seq<Preset>, m: Model, id: nat, i: nat)
    requires TableOk(t) && PresetsOk(presets) && ModelOk(t, m) && i < |t|
    requires 1 <= id <= MAX_PROFILES && m.profiles[id].used
    ensures var after := Next(t, presets, m, Delete(id));
            && ModelOk(t, after) && !after.profiles[id].used
            && Effective(t, after, i) == if id == m.active then m.base[i] else Effective(t, m, i)
  {
    NextKeepsOk(t, presets, m, Delete(id));
  }

  /** A restart changes no value in effect. */
  lemma {:induction false} RestartKeepsValues(t: seq<Setting>, presets: seq<Preset>, m: Model, i: nat)
    requires TableOk(t) && PresetsOk(presets) && ModelOk(t, m) && i < |t|
    ensures ModelOk(t, Next(t, presets, m, Boot))
    ensures Effective(t, Next(t, presets, m, Boot), i) == Effective(t, m, i)
  {
  }

  // ---- what a made or changed profile holds ----

  // Before the request's own values.
  function StartValue(t: seq<Setting>, presets: seq<Preset>, m: Model, body: seq<Pair>, key: string): Option<Json>
    requires ModelOk(t, m)
  {
    var from := FromIn(body);
    if from == "current" then (if m.active != 0 then Get(m.profiles[m.active].own, key) else None)
    else if from == "empty" then None
    else
      var preset := FindPreset(presets, from);
      if preset.None? then None else ValueSet(t, FirstSet(preset.value.own, key), key)
  }

  /** A new profile has a key at its last value in the request that is not null,
      checked, else where it started from; a null there drops nothing. */
  lemma {:induction false} MadeHolds(t: seq<Setting>, presets: seq<Preset>, m: Model, body: seq<Pair>, key: string)
    requires ModelOk(t, m) && Clean(m) && PresetsAskOnce(presets)
    requires Made(t, presets, m, body).Success?
    ensures var p, given := Made(t, presets, m, body).value, Get(body, "set");
            var asked := if given.Some? && given.value.Object? then LastSet(given.value.members, key) else None;
            Get(p.own, key) ==
              if asked.Some? then ProfileValue(t, key, asked.value) else StartValue(t, presets, m, body, key)
  {
    EmptyIsClean();
    var from := FromIn(body);
    var preset := if from == "current" || from == "empty" then None else FindPreset(presets, from);
    if preset.Some? {
      MergeRepeats(t, [], Object(preset.value.own));
      MergeMeans(t, [], Object(preset.value.own), key);
    }
    var start := if from == "current" && m.active != 0 then m.profiles[m.active].own else StartSet(t, preset).value;
    var given := Get(body, "set");
    OverlaidMeans(start, Extra(t, body).value, key);
    if given.Some? {
      CheckedLast(t, given.value.members, key);
      DroppedFromNothing(given.value.members);
      assert Extra(t, body).value == Checked(t, given.value.members).value;
    }
  }

  lemma {:induction false} DroppedFromNothing(keys: seq<Pair>)
    ensures DropAll([], keys) == []
  {
    if keys != [] {
      DroppedFromNothing(keys[1..]);
    }
  }

  predicate Unsets(body: seq<Pair>, key: string) {
    var unset := Get(body, "unset");
    unset.Some? && unset.value.List? && Json.Str(key) in unset.value.items
  }

  /** A changed profile has no key the request unsets, a key it sets at its value
      there, checked, none it sets to null, and any other as it was. */
  lemma {:induction false} ChangedHolds(t: seq<Setting>, p: Profile, body: seq<Pair>, key: string)
    requires NoRepeats(p.own) && AsksOnce(Update(1, body)) && Changed(t, p, body).Success?
    ensures var given := Get(body, "set");
            var asked := if given.Some? && given.value.Object? then given.value.members else [];
            Get(Changed(t, p, body).value.own, key) ==
              if Unsets(body, key) then None
              else if FirstSet(asked, key).Some? then ProfileValue(t, key, FirstSet(asked, key).value)
              else if Count(asked, key) > 0 then None
              else Get(p.own, key)
  {
    var given, unset := Get(body, "set"), Get(body, "unset");
    var merged := if given.None? then p.own else Merged(t, p.own, given.value).value;
    if given.Some? {
      MergeMeans(t, p.own, given.value, key);
      MergeRepeats(t, p.own, given.value);
    }
    if unset.Some? {
      var names := StringsOf(unset.value.items);
      StringsNamed(unset.value.items, key);
      CountOfDropAll(merged, names, key);
      GetOfDropAll(merged, names, key);
      CountIsGet(DropAll(merged, names), key);
      assert Count(merged, key) <= 1;
    }
  }

  lemma {:induction false} StringsNamed(items: seq<Json>, key: string)
    ensures Count(StringsOf(items), key) > 0 <==> Json.Str(key) in items
  {
    if items != [] {
      StringsNamed(items[1..], key);
      var first := if items[0].Str? then [Pair(items[0].s, Null)] else [];
      CountOfTwo(first, StringsOf(items[1..]), key);
      assert first != [] ==> first[1..] == [];
      assert items == [items[0]] + items[1..];
    }
  }

  // ---- keys named twice ----

  ghost predicate AsksOnce(c: Call) {
    c.Update? ==> var given := Get(c.body, "set");
                  given.Some? && given.value.Object? ==> SetsOnce(given.value.members)
  }

  ghost predicate PresetsAskOnce(presets: seq<Preset>) {
    forall p | p in presets :: SetsOnce(p.own)
  }

  lemma {:induction false} EmptyIsClean()
    ensures NoRepeats([])
  {
  }

  lemma {:induction false} DroppingKeepsClean(o: seq<Pair>, keys: seq<Pair>)
    requires NoRepeats(o)
    ensures NoRepeats(DropAll(o, keys))
  {
    forall k: string ensures Count(DropAll(o, keys), k) <= 1 {
      CountOfDropAll(o, keys, k);
      assert Count(o, k) <= 1;
    }
  }

  lemma {:induction false} MadeIsClean(t: seq<Setting>, presets: seq<Preset>, m: Model, body: seq<Pair>)
    requires ModelOk(t, m) && Clean(m) && PresetsAskOnce(presets)
    ensures var made := Made(t, presets, m, body); made.Success? ==> NoRepeats(made.value.own)
  {
    EmptyIsClean();
    var from := FromIn(body);
    if Made(t, presets, m, body).Success? {
      var preset := if from == "current" || from == "empty" then None else FindPreset(presets, from);
      if preset.Some? {
        MergeRepeats(t, [], Object(preset.value.own));
      }
      var start := if from == "current" && m.active != 0 then m.profiles[m.active].own else StartSet(t, preset).value;
      OverlaidMeans(start, Extra(t, body).value, "");
    }
  }

  lemma {:induction false} ChangedIsClean(t: seq<Setting>, p: Profile, body: seq<Pair>)
    requires NoRepeats(p.own) && AsksOnce(Update(1, body))
    ensures var c := Changed(t, p, body); c.Success? ==> NoRepeats(c.value.own)
  {
    var given, unset := Get(body, "set"), Get(body, "unset");
    if Changed(t, p, body).Success? {
      if given.Some? {
        MergeRepeats(t, p.own, given.value);
      }
      var merged := if given.None? then Some(p.own) else Merged(t, p.own, given.value);
      if unset.Some? {
        DroppingKeepsClean(merged.value, StringsOf(unset.value.items));
      }
    }
  }

  lemma {:induction false} PutKeepsClean(t: seq<Setting>, m: Model, i: nat, v: Value)
    requires ModelOk(t, m) && i < |t| && Clean(m)
    ensures Clean(Put(t, m, i, v))
  {
    var o := m.profiles[m.active].own;
    forall k: string ensures Count(DeviceSettings.Store(o, t[i].key, Kept(v)), k) <= 1 {
      StoreKeepsOthers(o, t[i].key, Kept(v), k);
      assert Count(o, k) <= 1;
    }
  }

  lemma {:induction false} NextKeepsClean(t: seq<Setting>, presets: seq<Preset>, m: Model, c: Call)
    requires TableOk(t) && PresetsOk(presets) && ModelOk(t, m)
    requires Clean(m) && PresetsAskOnce(presets) && AsksOnce(c)
    ensures Clean(Next(t, presets, m, c))
  {
    EmptyIsClean();
    match c
    case SetValue(i, v) =>
      if i < |t| {
        PutKeepsClean(t, m, i, v);
      }
    case Create(body) =>
      var made := Made(t, presets, m, body);
      if made.Success? {
        MadeIsClean(t, presets, m, body);
        SlotKeepsClean(m, FreeId(m, 1), made.value);
      }
    case Update(id, body) =>
      if 1 <= id <= MAX_PROFILES {
        var changed := Changed(t, m.profiles[id], body);
        if changed.Success? {
          ChangedIsClean(t, m.profiles[id], body);
          SlotKeepsClean(m, id, changed.value);
        }
      }
    case Delete(id) =>
      if 1 <= id <= MAX_PROFILES {
        SlotKeepsClean(m, id, UNUSED);
      }
    case _ =>
  }

  lemma {:induction false} SlotKeepsClean(m: Model, id: nat, p: Profile)
    requires id < |m.profiles| && Clean(m) && NoRepeats(p.own)
    ensures forall n: Model | n.profiles == m.profiles[id := p] :: Clean(n)
  {
  }

  /** As long as no update gives a key two values, every set takes hold. */
  lemma {:induction false} AskingOnceTakesHold(t: seq<Setting>, presets: seq<Preset>, m: Model, cs: seq<Call>)
    requires TableOk(t) && PresetsOk(presets) && PresetsAskOnce(presets) && ModelOk(t, m) && Clean(m)
    requires forall c | c in cs :: AsksOnce(c)
    ensures AllTakeHold(t, presets, m, cs)
    decreases |cs|
  {
    if cs != [] {
      var c := cs[0];
      assert c.SetValue? && c.i < |t| ==> Count(m.profiles[m.active].own, t[c.i].key) <= 1;
      NextKeepsOk(t, presets, m, c);
      NextKeepsClean(t, presets, m, c);
      AskingOnceTakesHold(t, presets, Next(t, presets, m, c), cs[1..]);
    }
  }

  /** As long as no update gives a key two values, every value that is set takes
      effect at once and is still there after a restart. */
  lemma {:induction false} SetValuesHold(t: seq<Setting>, presets: seq<Preset>, m: Model, cs: seq<Call>,
                                                i: nat, v: Value)
    requires TableOk(t) && PresetsOk(presets) && PresetsAskOnce(presets) && ModelOk(t, m) && Clean(m)
    requires forall c | c in cs :: AsksOnce(c)
    requires i < |t| && InRange(t[i], v)
    ensures Effective(t, Run(t, presets, m, cs + [SetValue(i, v), Boot]), i) == v
    decreases |cs|
  {
    var all := cs + [SetValue(i, v), Boot];
    if cs == [] {
      assert all == [SetValue(i, v), Boot];
      RunTwo(t, presets, m, SetValue(i, v), Boot);
      assert Count(m.profiles[m.active].own, t[i].key) <= 1;
      PutTakesEffect(t, m, i, v, i);
      RestartKeepsValues(t, presets, Next(t, presets, m, SetValue(i, v)), i);
    } else {
      assert all[1..] == cs[1..] + [SetValue(i, v), Boot];
      NextKeepsOk(t, presets, m, cs[0]);
      NextKeepsClean(t, presets, m, cs[0]);
      SetValuesHold(t, presets, Next(t, presets, m, cs[0]), cs[1..], i, v);
    }
  }

  /** An update that gives a key two values leaves one that a later setting
      cannot reach. */
  lemma {:induction false} KeyGivenTwiceGoesStale()
    ensures exists t: seq<Setting>, m: Model, body: seq<Pair> :: GoesStale(t, m, body)
  {
    var d := Setting("k", Kind.Int, 0, 9, 0, "", 0, [], false, false, true, None);
    var p := Profile(true, "A", NO_RULE, []);
    var m := Model([Number(0)], NoProfiles()[1 := p], 1, false, "", "", 0, "");
    var given := [Pair("k", Num(1)), Pair("k", Num(2))];
    OneSetting([d], m, p);
    StaleAfterTwice([d], m, p, [Pair("set", Object(given))], given);
  }

  // Setting 0 does not take 5 after the update.
  ghost predicate GoesStale(t: seq<Setting>, m: Model, body: seq<Pair>) {
    && |t| == 1 && TableOk(t) && ModelOk(t, m) && Clean(m)
    && InRange(t[0], Number(5))
    && Effective(t, Run(t, [], m, [Update(1, body), SetValue(0, Number(5))]), 0) != Number(5)
  }

  lemma {:induction false} OneSetting(t: seq<Setting>, m: Model, p: Profile)
    requires t == [Setting("k", Kind.Int, 0, 9, 0, "", 0, [], false, false, true, None)]
    requires p == Profile(true, "A", NO_RULE, [])
    requires m == Model([Number(0)], NoProfiles()[1 := p], 1, false, "", "", 0, "")
    ensures TableOk(t) && ModelOk(t, m) && Clean(m)
  {
    assert PinRows(t, 1) == 0;
    EmptyIsClean();
  }

  lemma {:induction false} StaleAfterTwice(t: seq<Setting>, m: Model, p: Profile, body: seq<Pair>, given: seq<Pair>)
    requires t == [Setting("k", Kind.Int, 0, 9, 0, "", 0, [], false, false, true, None)]
    requires TableOk(t) && ModelOk(t, m) && Clean(m) && m.active == 1 && m.profiles[1] == p && p.own == []
    requires given == [Pair("k", Num(1)), Pair("k", Num(2))] && body == [Pair("set", Object(given))]
    ensures GoesStale(t, m, body)
  {
    GivenTwice(t, given);
    ChangedToTwice(t, p, body, given);
    RunTwo(t, [], m, Update(1, body), SetValue(0, Number(5)));
    StaysAtTwo(t, m.(profiles := m.profiles[1 := p.(own := given)]), given);
  }

  lemma {:induction false} ChangedToTwice(t: seq<Setting>, p: Profile, body: seq<Pair>, given: seq<Pair>)
    requires body == [Pair("set", Object(given))] && Merged(t, p.own, Object(given)) == Some(given)
    ensures Changed(t, p, body) == Success(p.(own := given))
  {
    assert body[1..] == [] && body[0].key == "set";
    assert "name" != "set" && "match" != "set" && "unset" != "set";
    assert Get(body, "unset") == None && Get(body, "name") == None && Get(body, "match") == None;
  }

  lemma {:induction false} StaysAtTwo(t: seq<Setting>, m: Model, given: seq<Pair>)
    requires TableOk(t) && ModelOk(t, m) && |t| == 1 && t[0].key == "k" && t[0].perProfile && t[0].kind == Kind.Int
    requires t[0].min == 0 && t[0].max == 9
    requires m.active != 0 && m.profiles[m.active].own == given
    requires Count(given, "k") == 2 && Get(given, "k") == Some(Num(1)) && Get(Drop(given, "k"), "k") == Some(Num(2))
    ensures Effective(t, Next(t, [], m, SetValue(0, Number(5))), 0) != Number(5)
  {
    PutHidden(t, m, 0, Number(5));
    assert Effective(t, m, 0) == Number(1);
  }

  lemma {:induction false} RunTwo(t: seq<Setting>, presets: seq<Preset>, m: Model, a: Call, b: Call)
    requires TableOk(t) && PresetsOk(presets) && ModelOk(t, m)
    ensures ModelOk(t, Next(t, presets, m, a))
    ensures Run(t, presets, m, [a, b]) == Next(t, presets, Next(t, presets, m, a), b)
  {
    assert [a, b][1..] == [b] && [b][1..] == [];
    NextKeepsOk(t, presets, m, a);
    NextKeepsOk(t, presets, Next(t, presets, m, a), b);
    assert Run(t, presets, Next(t, presets, m, a), [b]) == Next(t, presets, Next(t, presets, m, a), b);
  }

  lemma {:induction false} GivenTwice(t: seq<Setting>, given: seq<Pair>)
    requires t == [Setting("k", Kind.Int, 0, 9, 0, "", 0, [], false, false, true, None)]
    requires given == [Pair("k", Num(1)), Pair("k", Num(2))]
    ensures Merged(t, [], Object(given)) == Some(given)
    ensures Count(given, "k") == 2 && Get(given, "k") == Some(Num(1)) && Get(Drop(given, "k"), "k") == Some(Num(2))
  {
    assert given[1..] == [Pair("k", Num(2))] && given[1..][1..] == [];
    assert ProfileValue(t, "k", Num(2)) == Some(Num(2)) && ProfileValue(t, "k", Num(1)) == Some(Num(1));
    assert Checked(t, []) == Some([]);
    assert Checked(t, given[1..]) == Some([Pair("k", Num(2))] + []);
    assert [Pair("k", Num(1))] + ([Pair("k", Num(2))] + []) == given;
    assert Checked(t, given).Some?;
    assert Drop([], "k") == [] && DropAll([], given[1..]) == DropAll([], given[1..][1..]) == [];
    assert DropAll([], given) == [];
    assert [] + given == given;
    assert Count(given[1..], "k") == 1 + Count(given[1..][1..], "k");
  }
}
