// The settings store with its overlay: the active profile's own values are
// copied over Default's, and readers see the copy. Models
// components/kvm_config/kvm_settings.c and kvm_profiles.c; flash is a map.

module SettingsStore {
  import opened Options
  import opened ProfileMatch
  import opened PinConflict
  import opened DeviceSettings
  import opened DeviceProfiles
  import opened ProfileChoice

  // What survives a restart.
  datatype Flash = Flash(values: map<string, Value>, profiles: map<nat, Profile>, active: nat, manual: bool,
                         seen: string, restarts: nat, source: string)

  function ProfilesKept(ps: seq<Profile>): map<nat, Profile>
    requires |ps| == MAX_PROFILES + 1
  {
    map id: nat | 1 <= id <= MAX_PROFILES && ps[id].used :: ps[id]
  }

  // Flash holds what is in memory, or nothing where that is the default.
  predicate ValuesKept(t: seq<Setting>, values: seq<Value>, nvs: map<string, Value>)
    requires |values| == |t|
  {
    forall i | 0 <= i < |t| :: values[i] == if t[i].key in nvs then nvs[t[i].key] else DefaultOf(t[i])
  }

  predicate OverlayFits(t: seq<Setting>, over: seq<Option<Value>>, active: nat) {
    && |over| == |t|
    && forall i | 0 <= i < |t| && over[i].Some? :: t[i].perProfile && active != 0 && InRange(t[i], over[i].value)
  }

  // What readers see.
  function InEffect(values: seq<Value>, over: seq<Option<Value>>): (s: seq<Value>)
    requires |values| == |over|
    ensures |s| == |values| && forall i | 0 <= i < |s| :: s[i] == if over[i].Some? then over[i].value else values[i]
  {
    seq(|values|, i requires 0 <= i < |values| => if over[i].Some? then over[i].value else values[i])
  }

  // The active profile's own value, or Default's.
  ghost predicate Shows(t: seq<Setting>, m: Model, seen: seq<Value>) {
    ModelOk(t, m) && |seen| == |t| && forall i | 0 <= i < |t| :: seen[i] == Effective(t, m, i)
  }

  predicate NeedsReboot(t: seq<Setting>, before: seq<Value>, after: seq<Value>)
    requires |before| == |after| == |t|
  {
    exists i :: 0 <= i < |t| && before[i] != after[i] && t[i].reboot
  }

  lemma OneValueKept(t: seq<Setting>, values: seq<Value>, nvs: map<string, Value>, i: nat, v: Value)
    requires |values| == |t| && i < |t| && TableOk(t) && ValuesKept(t, values, nvs)
    ensures ValuesKept(t, values[i := v], nvs[t[i].key := v])
  {
    forall j | 0 <= j < |t| && j != i ensures t[j].key != t[i].key {
      KeysDiffer(t, i, j);
    }
  }

  lemma OneProfileKept(ps: seq<Profile>, id: nat, p: Profile)
    requires |ps| == MAX_PROFILES + 1 && 1 <= id <= MAX_PROFILES
    ensures ProfilesKept(ps[id := p]) ==
              if p.used then ProfilesKept(ps)[id := p] else ProfilesKept(ps) - {id}
  {
  }

  // What is in effect does not depend on who chose the profile.
  lemma SameInEffect(t: seq<Setting>, m: Model, n: Model, seen: seq<Value>)
    requires ModelOk(t, m) && n.base == m.base && n.profiles == m.profiles && n.active == m.active
    ensures ModelOk(t, n) && (Shows(t, m, seen) ==> Shows(t, n, seen))
  {
  }

  // Nor on the other profiles.
  lemma OtherSlot(t: seq<Setting>, m: Model, id: nat, p: Profile, seen: seq<Value>)
    requires ModelOk(t, m) && 1 <= id <= MAX_PROFILES && id != m.active
    requires ProfileOk(p) && (!p.used ==> p == UNUSED)
    ensures var n := m.(profiles := m.profiles[id := p]); ModelOk(t, n) && (Shows(t, m, seen) ==> Shows(t, n, seen))
  {
  }

  function IdIn(o: seq<Pair>): int {
    var id := Get(o, "id");
    if id.Some? && id.value.Num? then id.value.n else -1
  }

  function SetError(t: seq<Setting>, key: string, v: Value): Err {
    var i := FindIndex(t, key);
    if i < 0 then NotFound
    else if Numeric(t[i]) != v.Number? then InvalidArg
    else if InRange(t[i], v) then Ok
    else if v.Number? then InvalidArg else InvalidSize
  }

  /** A value is taken exactly if some setting has the key and the value is of its
      kind and in its range or length. */
  lemma SetIsTakenExactly(t: seq<Setting>, key: string, v: Value)
    requires TableOk(t)
    ensures SetError(t, key, v) == Ok <==> exists i :: 0 <= i < |t| && t[i].key == key && ValueIs(t[i], v)
    ensures SetError(t, key, v) == NotFound <==> forall i | 0 <= i < |t| :: t[i].key != key
  {
    var i := FindIndex(t, key);
    forall k | 0 <= k < |t| && t[k].key == key ensures k == i {
      if k != i {
        KeysDiffer(t, i, k);
      }
    }
    if i >= 0 {
      RangeIsTheRows(t[i], v);
    }
  }

  predicate ValueIs(d: Setting, v: Value) {
    match v
    case Number(n) => NumberFits(d, n)
    case Text(s) => TextFits(d, s)
  }

  // The model after setting i to v when it is not v already.
  function AfterSet(t: seq<Setting>, m: Model, i: nat, v: Value, before: Value): Model
    requires ModelOk(t, m) && i < |t|
  {
    if before == v then m else Put(t, m, i, v)
  }

  lemma SetShows(t: seq<Setting>, m: Model, i: nat, v: Value, seen: seq<Value>)
    requires TableOk(t) && i < |t| && InRange(t[i], v) && Shows(t, m, seen) && Clean(m)
    ensures Shows(t, AfterSet(t, m, i, v, seen[i]), seen[i := v]) && Clean(AfterSet(t, m, i, v, seen[i]))
  {
    if seen[i] == v {
      assert seen[i := v] == seen;
    } else {
      PutKeepsOk(t, m, i, v);
      forall j | 0 <= j < |t| ensures Effective(t, Put(t, m, i, v), j) == seen[i := v][j] {
        PutTakesEffect(t, m, i, v, j);
      }
      NextKeepsClean(t, [], m, SetValue(i, v));
    }
  }

  function LoadOne(d: Setting, stored: map<string, Value>): Value {
    if d.key in stored && InRange(d, stored[d.key]) then stored[d.key] else DefaultOf(d)
  }

  /** Whatever flash holds, what is loaded is in range. */
  lemma LoadedValueFits(t: seq<Setting>, i: nat, stored: map<string, Value>)
    requires TableOk(t) && i < |t|
    ensures InRange(t[i], LoadOne(t[i], stored))
  {
    EveryRowIsOk(t, |t|);
    assert RowOk(t, i);
  }

  // A profile as it is read back.
  function ReadBack(p: Profile): Profile {
    Profile(true, Cut(p.name, NAME_LEN),
            Rule(Cut(p.rule.cecName, 15), Cut(p.rule.cecVendor, 7), Cut(p.rule.usbOs, 11)), p.own)
  }

  // ---- merging, step by step ----

  method CheckSet(t: seq<Setting>, src: seq<Pair>) returns (r: Option<seq<Pair>>)
    ensures r == Checked(t, src)
  {
    var checked: seq<Pair> := [];
    assert src[0..] == src && forall more: seq<Pair> :: checked + more == more;
    for i := 0 to |src|
      invariant Checked(t, src[i..]).None? ==> Checked(t, src) == None
      invariant Checked(t, src[i..]).Some? ==> Checked(t, src) == Some(checked + Checked(t, src[i..]).value)
    {
      var it := src[i];
      assert src[i..][1..] == src[i + 1..];
      if it.value.Null? {
        continue;
      }
      var v := ProfileValue(t, it.key, it.value);
      if v.None? {
        return None;
      }
      if Checked(t, src[i + 1..]).Some? {
        assert checked + ([Pair(it.key, v.value)] + Checked(t, src[i + 1..]).value) ==
               (checked + [Pair(it.key, v.value)]) + Checked(t, src[i + 1..]).value;
      }
      checked := checked + [Pair(it.key, v.value)];
    }
    assert src[|src|..] == [] && checked + [] == checked;
    return Some(checked);
  }

  method DropEach(o: seq<Pair>, keys: seq<Pair>) returns (r: seq<Pair>)
    ensures r == DropAll(o, keys)
  {
    r := o;
    assert keys[0..] == keys;
    for i := 0 to |keys|
      invariant DropAll(r, keys[i..]) == DropAll(o, keys)
    {
      assert keys[i..][1..] == keys[i + 1..];
      r := Drop(r, keys[i].key);
    }
  }

  /** merge_set: nothing is changed unless every value passes. */
  method MergeSet(t: seq<Setting>, dst: seq<Pair>, src: Json) returns (r: Option<seq<Pair>>)
    ensures r == Merged(t, dst, src)
  {
    if !src.Object? {
      return None;
    }
    var checked := CheckSet(t, src.members);
    if checked.None? {
      return None;
    }
    var left := DropEach(dst, src.members);
    return Some(left + checked.value);
  }

  method OverlayEach(o: seq<Pair>, extra: seq<Pair>) returns (r: seq<Pair>)
    ensures r == Overlaid(o, extra)
  {
    r := o;
    assert extra[0..] == extra;
    for i := 0 to |extra|
      invariant Overlaid(r, extra[i..]) == Overlaid(o, extra)
    {
      assert extra[i..][1..] == extra[i + 1..];
      r := DeviceSettings.Store(r, extra[i].key, extra[i].value);
    }
  }

  class Store {
    const table: seq<Setting>
    const presets: seq<Preset>

    var values: seq<Value>        // Default's
    var over: seq<Option<Value>>  // the active profile's own
    var profiles: seq<Profile>
    var active: nat
    var manual: bool
    var here: string
    var flash: Flash

    ghost function M(): Model
      reads this
    {
      Model(values, profiles, active, manual, flash.seen, here, flash.restarts, flash.source)
    }

    ghost predicate Sound()
      reads this
    {
      && TableOk(table) && PresetsOk(presets)
      && ModelOk(table, M()) && OverlayFits(table, over, active)
      && ValuesKept(table, values, flash.values) && flash.profiles == ProfilesKept(profiles)
      && flash.active == active && (active != 0 ==> flash.manual == manual)
    }

    /** Every reader sees the active profile's own value, or Default's. */
    ghost predicate Agrees()
      reads this
    {
      Sound() && Shows(table, M(), InEffect(values, over))
    }

    // A device that has never been used.
    constructor (table: seq<Setting>, presets: seq<Preset>)
      requires TableOk(table) && PresetsOk(presets)
      ensures this.table == table && this.presets == presets
      ensures Sound() && Agrees() && Clean(M())
      ensures M() == WithoutAll(table, M()) && here == ""
    {
      this.table, this.presets := table, presets;
      values, over := Defaults(table), seq(|table|, i => None);
      profiles, active, manual, here := NoProfiles(), 0, false, "";
      flash := Flash(map[], map[], 0, false, "", 0, "");
      new;
      DefaultsFit(table);
      EmptyIsClean();
    }

    // ---- the overlay ----

    // Puts a profile's own values ([] for Default) over the others.
    method OverlayLoad(own: seq<Pair>) returns (changed: seq<bool>, reboot: bool)
      requires |values| == |over| == |table|
      requires forall i | 0 <= i < |table| && over[i].Some? :: table[i].perProfile
      modifies this`over
      ensures |over| == |table| == |changed|
      ensures forall i | 0 <= i < |table| :: over[i] == Own(table[i], own)
      ensures var before, after := old(InEffect(values, over)), InEffect(values, over);
              && (forall i | 0 <= i < |table| :: changed[i] <==> before[i] != after[i])
              && (reboot <==> NeedsReboot(table, before, after))
      ensures reboot <==> exists i :: 0 <= i < |table| && changed[i] && table[i].reboot
    {
      reboot := false;
      changed := [];
      ghost var before := InEffect(values, over);
      for i := 0 to |table|
        invariant |over| == |table| && |changed| == i
        invariant forall k | i <= k < |table| :: over[k] == old(over[k])
        invariant forall k | 0 <= k < i :: over[k] == Own(table[k], own)
        invariant forall k | 0 <= k < i ::
                    changed[k] <==> before[k] != if over[k].Some? then over[k].value else values[k]
        invariant reboot <==> exists k :: 0 <= k < i && changed[k] && table[k].reboot
      {
        var d := table[i];
        if !d.perProfile {
          changed := changed + [false];
          continue;
        }
        var it := Get(own, d.key);
        var fits := it.Some? && StoredOk(d, it.value);
        var nv := if fits then ValueOf(it.value) else values[i];
        var moved := (if over[i].Some? then over[i].value else values[i]) != nv;
        changed := changed + [moved];
        over := over[i := if fits then Some(nv) else None];
        if moved && d.reboot {
          reboot := true;
        }
      }
    }

    /** What moved is exactly what readers now see differently. */
    method SwitchTo(id: nat) returns (changed: seq<bool>, reboot: bool)
      requires ModelOk(table, M()) && OverlayFits(table, over, active)
      requires id <= MAX_PROFILES && profiles[id].used
      modifies this`active, this`over
      ensures active == id && ModelOk(table, M()) && OverlayFits(table, over, active)
      ensures var before, after := old(InEffect(values, over)), InEffect(values, over);
              && Shows(table, M(), after)
              && |changed| == |table| && (forall i | 0 <= i < |table| :: changed[i] <==> before[i] != after[i])
              && (reboot <==> NeedsReboot(table, before, after))
    {
      active := id;
      changed, reboot := OverlayLoad(if id == 0 then [] else profiles[id].own);
      assert profiles[0].own == [] && forall i | 0 <= i < |table| :: Own(table[i], []) == None;
    }

    // ---- the calls ----

    method Select(id: nat, byHand: bool) returns (err: Err, reboot: bool)
      requires Sound()
      modifies this
      ensures Sound()
      ensures err == if id <= MAX_PROFILES && old(profiles[id]).used then Ok else NotFound
      ensures M() == if err == Ok then Selected(old(M()), id, byHand) else old(M())
      ensures profiles == old(profiles) && values == old(values) && here == old(here)
      ensures err == Ok ==> active == id && manual == byHand
      ensures flash.seen == if err == Ok && byHand && !(old(manual) && old(active) == id) && here != "" then here
                            else old(flash.seen)
      ensures reboot <==> exists i :: 0 <= i < |table| && table[i].reboot
                                      && old(InEffect(values, over))[i] != InEffect(values, over)[i]
      ensures old(Agrees()) ==> Agrees()
      ensures reboot <==> NeedsReboot(table, old(InEffect(values, over)), InEffect(values, over))
    {
      reboot := false;
      if id > MAX_PROFILES || !profiles[id].used {
        return NotFound, false;
      }
      if id != active || byHand != manual {
        if id != active {
          var changed;
          changed, reboot := SwitchTo(id);
        }
        ghost var m := M();
        manual := byHand;
        flash := flash.(active := active, manual := manual, seen := if byHand && here != "" then here else flash.seen);
        SameInEffect(table, m, M(), InEffect(values, over));
      }
      return Ok, reboot;
    }

    method Delete(id: nat) returns (err: Err, reboot: bool)
      requires Sound()
      modifies this
      ensures Sound()
      ensures err == if id == 0 then NotAllowed
                     else if id <= MAX_PROFILES && old(profiles[id]).used then Ok else NotFound
      ensures M() == if err == Ok then Deleted(old(M()), id) else old(M())
      ensures values == old(values) && flash.seen == old(flash.seen) && |profiles| == |old(profiles)|
      ensures forall k | 0 <= k < |profiles| && k != id :: profiles[k] == old(profiles[k])
      ensures err == Ok ==>
                && 1 <= id < |profiles| && !profiles[id].used
                && active == (if old(active) == id then 0 else old(active))
                && manual == (old(active) != id && old(manual))
      ensures old(Agrees()) ==> Agrees()
      ensures reboot <==> NeedsReboot(table, old(InEffect(values, over)), InEffect(values, over))
    {
      reboot := false;
      if id == 0 {
        return NotAllowed, false;
      }
      if id > MAX_PROFILES || !profiles[id].used {
        return NotFound, false;
      }
      if id == active {
        var changed;
        changed, reboot := SwitchTo(0);
        ghost var m := M();
        manual := false;
        flash := flash.(active := active, manual := manual);
        SameInEffect(table, m, M(), InEffect(values, over));
      }
      OneProfileKept(profiles, id, UNUSED);
      OtherSlot(table, M(), id, UNUSED, InEffect(values, over));
      profiles := profiles[id := UNUSED];
      flash := flash.(profiles := flash.profiles - {id});
      return Ok, reboot;
    }

    method Create(body: Option<Json>) returns (err: Err, id: nat, reboot: bool)
      requires Sound()
      modifies this
      ensures Sound()
      ensures body.None? || !body.value.Object? ==> err == InvalidArg && M() == old(M())
      ensures body.Some? && body.value.Object? ==>
                var made := Made(table, presets, old(M()), body.value.members);
                if made.Failure? then err == made.err && M() == old(M())
                else err == Ok && id == FreeId(old(M()), 1) &&
                     M() == Placed(old(M()), id, made.value, Selects(body.value.members))
      ensures values == old(values) && |profiles| == |old(profiles)| && here == old(here)
      ensures err == Ok ==>
                && 1 <= id < |profiles| && !old(profiles[id]).used && profiles[id].used
                && (forall k | 1 <= k < id :: profiles[k].used)
                && (forall k | 0 <= k < |profiles| && k != id :: profiles[k] == old(profiles[k]))
                && Success(profiles[id]) == Made(table, presets, old(M()), body.value.members)
                && (if Get(body.value.members, "select") == Some(Flag(false))
                    then active == old(active) && manual == old(manual) && flash.seen == old(flash.seen)
                    else active == id && manual && flash.seen == if here != "" then here else old(flash.seen))
      ensures old(Agrees()) ==> Agrees()
      ensures reboot <==> NeedsReboot(table, old(InEffect(values, over)), InEffect(values, over))
    {
      id, reboot := 0, false;
      if body.None? || !body.value.Object? {
        return InvalidArg, 0, false;
      }
      var made := Make(body.value.members);
      if made.Failure? {
        return made.err, 0, false;
      }
      MadeIsOk(table, presets, M(), body.value.members);
      id := FirstFree();
      reboot := Place(id, made.value, Selects(body.value.members));
      return Ok, id, reboot;
    }

    method Make(o: seq<Pair>) returns (r: Result<Profile>)
      requires ModelOk(table, M())
      ensures r == Made(table, presets, M(), o)
    {
      var from := FromIn(o);
      var preset := None;
      if from != "current" && from != "empty" {
        preset := FindPreset(presets, from);
        if preset.None? {
          return Failure(NotFound);
        }
      }
      var p := Profile(true, "New profile", NO_RULE, []);
      if preset.Some? {
        var start := MergeSet(table, [], Object(preset.value.own));
        if start.None? {
          return Failure(InvalidArg);
        }
        p := Profile(true, preset.value.name, preset.value.rule, start.value);
      }
      var name := NameFrom(o, p.name);
      if name.None? {
        return Failure(InvalidArg);
      }
      p := p.(name := name.value, rule := RuleIn(o, p.rule));
      var own := Get(o, "set");
      var extra := Some([]);
      if own.Some? {
        extra := MergeSet(table, [], own.value);
        if extra.None? {
          return Failure(InvalidArg);
        }
      }
      var id := FirstFree();
      if id == 0 {
        return Failure(NoMem);
      }
      if from == "current" && active != 0 {
        p := p.(own := profiles[active].own);
      }
      var all := OverlayEach(p.own, extra.value);
      return Success(p.(own := all));
    }

    method Update(body: Option<Json>) returns (err: Err, reboot: bool)
      requires Sound()
      modifies this
      ensures Sound()
      ensures body.None? || !body.value.Object? ==> err == InvalidArg && M() == old(M())
      ensures body.Some? && body.value.Object? ==>
                var o, id := body.value.members, IdIn(body.value.members);
                if id == 0 then err == NotAllowed && M() == old(M())
                else if id < 1 || id > MAX_PROFILES || !old(profiles[id]).used then err == NotFound && M() == old(M())
                else
                  var changed := Changed(table, old(profiles[id]), o);
                  if changed.Failure? then err == changed.err && M() == old(M())
                  else err == Ok && M() == old(M()).(profiles := old(profiles)[id := changed.value])
      ensures values == old(values) && active == old(active) && manual == old(manual) && flash.seen == old(flash.seen)
      ensures old(Agrees()) ==> Agrees()
      ensures reboot <==> NeedsReboot(table, old(InEffect(values, over)), InEffect(values, over))
    {
      reboot := false;
      if body.None? || !body.value.Object? {
        return InvalidArg, false;
      }
      var o, id := body.value.members, IdIn(body.value.members);
      if id == 0 {
        return NotAllowed, false;
      }
      if id < 1 || id > MAX_PROFILES || !profiles[id].used {
        return NotFound, false;
      }
      var next := Change(profiles[id], o);
      if next.Failure? {
        return next.err, false;
      }
      ChangedIsOk(table, profiles[id], o);
      reboot := Replace(id, next.value);
      return Ok, reboot;
    }

    method Change(p: Profile, o: seq<Pair>) returns (r: Result<Profile>)
      ensures r == Changed(table, p, o)
    {
      var next := p;
      var name := NameFrom(o, p.name);
      if name.None? {
        return Failure(InvalidArg);
      }
      next := next.(name := name.value, rule := RuleIn(o, p.rule));
      var given := Get(o, "set");
      if given.Some? {
        var merged := MergeSet(table, next.own, given.value);
        if merged.None? {
          return Failure(InvalidArg);
        }
        next := next.(own := merged.value);
      }
      var unset := Get(o, "unset");
      if unset.Some? {
        if !unset.value.List? {
          return Failure(InvalidArg);
        }
        var left := DropEach(next.own, StringsOf(unset.value.items));
        next := next.(own := left);
      }
      return Success(next);
    }

    method Replace(id: nat, p: Profile) returns (reboot: bool)
      requires Sound() && 1 <= id <= MAX_PROFILES && profiles[id].used && p.used && ProfileOk(p)
      modifies this
      ensures Sound() && M() == old(M()).(profiles := old(profiles)[id := p])
      ensures old(Agrees()) ==> Agrees()
      ensures reboot <==> NeedsReboot(table, old(InEffect(values, over)), InEffect(values, over))
    {
      reboot := false;
      OneProfileKept(profiles, id, p);
      if id != active {
        OtherSlot(table, M(), id, p, InEffect(values, over));
      }
      profiles := profiles[id := p];
      flash := flash.(profiles := flash.profiles[id := p]);
      if id == active {
        var changed;
        changed, reboot := SwitchTo(id);
      }
    }

    method FirstFree() returns (id: nat)
      requires |profiles| == MAX_PROFILES + 1
      ensures id == FreeId(M(), 1)
    {
      id := 1;
      while id <= MAX_PROFILES
        invariant 1 <= id <= MAX_PROFILES + 1
        invariant FreeId(M(), 1) == FreeId(M(), id)
      {
        if !profiles[id].used {
          return id;
        }
        id := id + 1;
      }
      return 0;
    }

    // Puts a new profile in a free slot, and in effect if asked.
    method Place(id: nat, p: Profile, select: bool) returns (reboot: bool)
      requires Sound() && 1 <= id <= MAX_PROFILES && !profiles[id].used && p.used && ProfileOk(p)
      modifies this
      ensures Sound() && M() == Placed(old(M()), id, p, select)
      ensures old(Agrees()) ==> Agrees()
      ensures reboot <==> NeedsReboot(table, old(InEffect(values, over)), InEffect(values, over))
    {
      reboot := false;
      OneProfileKept(profiles, id, p);
      OtherSlot(table, M(), id, p, InEffect(values, over));
      profiles := profiles[id := p];
      flash := flash.(profiles := flash.profiles[id := p]);
      if select {
        var changed;
        changed, reboot := SwitchTo(id);
        ghost var m := M();
        manual := true;
        flash := flash.(active := active, manual := manual, seen := if here != "" then here else flash.seen);
        SameInEffect(table, m, M(), InEffect(values, over));
      }
    }

    /** Every reader sees the value from now on, and no other value moves. */
    method SetInt(key: string, value: int) returns (err: Err)
      requires Sound()
      modifies this
      ensures Sound()
      ensures err == SetError(table, key, Number(value))
      ensures err == Ok <==> exists i :: 0 <= i < |table| && table[i].key == key && NumberFits(table[i], value)
      ensures err == NotFound <==> forall i | 0 <= i < |table| :: table[i].key != key
      ensures err != Ok ==> M() == old(M()) && over == old(over)
      ensures err == Ok ==>
                var i, before := FindIndex(table, key), old(InEffect(values, over));
                && InEffect(values, over) == before[i := Number(value)]
                && M() == AfterSet(table, old(M()), i, Number(value), before[i])
      ensures old(Agrees()) && old(Clean(M())) ==> Agrees() && Clean(M())
    {
      SetIsTakenExactly(table, key, Number(value));
      assert forall d :: ValueIs(d, Number(value)) <==> NumberFits(d, value);
      var i := FindIndex(table, key);
      if i < 0 {
        return NotFound;
      }
      var d := table[i];
      if !Numeric(d) {
        return InvalidArg;
      }
      if value < Least(d) || value > Greatest(d) {
        return InvalidArg;
      }
      SetAt(i, Number(value));
      return Ok;
    }

    method SetStr(key: string, value: string) returns (err: Err)
      requires Sound()
      modifies this
      ensures Sound()
      ensures err == SetError(table, key, Text(value))
      ensures err == Ok <==> exists i :: 0 <= i < |table| && table[i].key == key && TextFits(table[i], value)
      ensures err == NotFound <==> forall i | 0 <= i < |table| :: table[i].key != key
      ensures err != Ok ==> M() == old(M()) && over == old(over)
      ensures err == Ok ==>
                var i, before := FindIndex(table, key), old(InEffect(values, over));
                && InEffect(values, over) == before[i := Text(value)]
                && M() == AfterSet(table, old(M()), i, Text(value), before[i])
      ensures old(Agrees()) && old(Clean(M())) ==> Agrees() && Clean(M())
    {
      SetIsTakenExactly(table, key, Text(value));
      assert forall d :: ValueIs(d, Text(value)) <==> TextFits(d, value);
      var i := FindIndex(table, key);
      if i < 0 {
        return NotFound;
      }
      var d := table[i];
      if Numeric(d) {
        return InvalidArg;
      }
      if |value| > d.maxLen {
        return InvalidSize;
      }
      SetAt(i, Text(value));
      return Ok;
    }

    // To the active profile if the setting may differ by profile, else to
    // Default; flash only when the value in effect moves.
    method SetAt(i: nat, v: Value)
      requires Sound() && i < |table| && InRange(table[i], v)
      modifies this
      ensures Sound()
      ensures var before := old(InEffect(values, over));
              && InEffect(values, over) == before[i := v]
              && M() == AfterSet(table, old(M()), i, v, before[i])
      ensures old(Agrees()) && old(Clean(M())) ==> Agrees() && Clean(M())
    {
      AboutToSet(i, v);
      if InEffect(values, over)[i] == v {
        assert InEffect(values, over) == InEffect(values, over)[i := v];
        return;
      }
      if table[i].perProfile && active != 0 {
        PutInProfile(i, v);
      } else {
        PutInDefault(i, v);
      }
    }

    method PutInProfile(i: nat, v: Value)
      requires Sound() && i < |table| && InRange(table[i], v) && table[i].perProfile && active != 0
      requires ModelOk(table, Put(table, M(), i, v))
      modifies this`over, this`profiles, this`flash
      ensures Sound() && M() == Put(table, old(M()), i, v)
      ensures InEffect(values, over) == old(InEffect(values, over))[i := v]
    {
      over := over[i := Some(v)];
      ProfilesStore(table[i].key, Kept(v));
      assert InEffect(values, over) == old(InEffect(values, over))[i := v];
    }

    method PutInDefault(i: nat, v: Value)
      requires Sound() && i < |table| && InRange(table[i], v) && !(table[i].perProfile && active != 0)
      requires ModelOk(table, Put(table, M(), i, v))
      modifies this`values, this`flash
      ensures Sound() && M() == Put(table, old(M()), i, v)
      ensures InEffect(values, over) == old(InEffect(values, over))[i := v]
    {
      OneValueKept(table, values, flash.values, i, v);
      values := values[i := v];
      flash := flash.(values := flash.values[table[i].key := v]);
      assert InEffect(values, over) == old(InEffect(values, over))[i := v];
    }

    lemma AboutToSet(i: nat, v: Value)
      requires Sound() && i < |table| && InRange(table[i], v)
      ensures ModelOk(table, Put(table, M(), i, v))
      ensures Agrees() && Clean(M()) ==>
                var seen := InEffect(values, over); var n := AfterSet(table, M(), i, v, seen[i]);
                Shows(table, n, seen[i := v]) && Clean(n)
    {
      PutKeepsOk(table, M(), i, v);
      if Agrees() && Clean(M()) {
        SetShows(table, M(), i, v, InEffect(values, over));
      }
    }

    method ProfilesStore(key: string, j: Json)
      requires |profiles| == MAX_PROFILES + 1 && 1 <= active <= MAX_PROFILES && profiles[active].used
      requires flash.profiles == ProfilesKept(profiles)
      modifies this`profiles, this`flash
      ensures var p := old(profiles[active]);
              profiles == old(profiles)[active := p.(own := DeviceSettings.Store(p.own, key, j))]
      ensures flash == old(flash).(profiles := flash.profiles) && flash.profiles == ProfilesKept(profiles)
    {
      var p := profiles[active];
      p := p.(own := DeviceSettings.Store(p.own, key, j));
      OneProfileKept(profiles, active, p);
      profiles := profiles[active := p];
      flash := flash.(profiles := flash.profiles[active := p]);
    }

    method Reset()
      requires Sound()
      modifies this
      ensures Sound() && Agrees() && M() == WithoutAll(table, old(M()))
      ensures forall i | 0 <= i < |table| ::
                values[i] == if table[i].kind == Kind.Str then Text(table[i].defStr) else Number(table[i].def)
      ensures active == 0 && !manual && here == old(here)
      ensures flash == Flash(map[], map[], 0, false, "", 0, "")
      ensures profiles[0].used && forall k | 1 <= k < |profiles| :: !profiles[k].used
    {
      var vs := DefaultValues();
      flash := Flash(map[], map[], 0, false, "", 0, "");
      profiles, active, manual := NoProfiles(), 0, false;
      values, over := vs, seq(|table|, i => None);
      DefaultsFit(table);
    }

    method DefaultValues() returns (vs: seq<Value>)
      ensures vs == Defaults(table)
    {
      vs := [];
      for i := 0 to |table|
        invariant vs == Defaults(table)[..i]
      {
        vs := vs + [DefaultOf(table[i])];
      }
    }

    /** A restart: memory is read back from flash. */
    method Boot()
      requires Sound()
      modifies this
      ensures Sound() && Agrees() && M() == Booted(old(M()))
      ensures values == old(values) && profiles == old(profiles) && active == old(active) && flash == old(flash)
      ensures manual == (old(manual) && active != 0) && here == ""
    {
      var vs := LoadValues();
      var ps := LoadProfiles();
      values, over, profiles, active, manual, here := vs, seq(|table|, i => None), ps, 0, false, "";
      var kept := flash.active;
      if kept <= MAX_PROFILES && profiles[kept].used && kept != 0 {
        var _, _ := SwitchTo(kept);
        ghost var m := M();
        manual := flash.manual;
        SameInEffect(table, m, M(), InEffect(values, over));
      }
    }

    method LoadValues() returns (vs: seq<Value>)
      requires Sound()
      ensures vs == values
    {
      vs := [];
      for i := 0 to |table|
        invariant vs == values[..i]
      {
        vs := vs + [LoadOne(table[i], flash.values)];
      }
    }

    method LoadProfiles() returns (ps: seq<Profile>)
      requires Sound()
      ensures ps == profiles
    {
      ps := NoProfiles();
      for id := 1 to MAX_PROFILES + 1
        invariant |ps| == MAX_PROFILES + 1 && ps[0] == profiles[0]
        invariant forall k | 1 <= k < id :: ps[k] == profiles[k]
        invariant forall k | id <= k <= MAX_PROFILES :: ps[k] == UNUSED
      {
        if id in flash.profiles {
          ps := ps[id := ReadBack(flash.profiles[id])];
        }
      }
    }

    // ---- the attached device ----

    method NoteSeen(fp: string)
      requires Sound()
      modifies this`here
      ensures Sound() && M() == old(M()).(here := fp)
      ensures old(Agrees()) ==> Agrees()
    {
      ghost var m := M();
      here := fp;
      SameInEffect(table, m, M(), InEffect(values, over));
    }

    method PickProfile(s: Seen) returns (id: nat)
      requires |profiles| == MAX_PROFILES + 1
      ensures id == PickFor(profiles, s)
    {
      var rules: seq<Rule> := [];
      var ids: seq<nat> := [];
      assert Slots(profiles[..1]) == [];
      for k := 1 to MAX_PROFILES + 1
        invariant ids == Slots(profiles[..k]) && rules == RulesOf(profiles, ids)
      {
        assert profiles[..k + 1][..k] == profiles[..k];
        if profiles[k].used {
          rules, ids := rules + [profiles[k].rule], ids + [k];
        }
      }
      assert profiles[..MAX_PROFILES + 1] == profiles;
      var best := PickRule(rules, s);
      return if best < 0 then 0 else ids[best];
    }

    method RestartsNewSource(fp: string)
      requires Sound()
      modifies this`flash
      ensures Sound() && M() == NewSource(old(M()), fp)
      ensures old(Agrees()) ==> Agrees()
    {
      ghost var m := M();
      var cec := CecPart(fp);
      if cec != "" && flash.source != "" && flash.source != cec {
        flash := flash.(restarts := 0);
      }
      SameInEffect(table, m, M(), InEffect(values, over));
    }

    method Remember(fp: string)
      requires Sound()
      modifies this`flash
      ensures Sound() && M() == old(M()).(held := fp)
      ensures old(Agrees()) ==> Agrees()
    {
      ghost var m := M();
      if flash.seen != fp {
        flash := flash.(seen := fp);
      }
      SameInEffect(table, m, M(), InEffect(values, over));
    }

    /** Whether the profile changed. */
    method DeviceSettled(s: Seen, fp: string) returns (moved: bool)
      requires Sound()
      modifies this
      ensures Sound() && M() == Settled(old(M()), s, fp)
      ensures moved == Moves(old(M()), s, fp)
      ensures values == old(values) && profiles == old(profiles) && here == old(here) && flash.seen == fp
      ensures var byHand := old(manual) && old(flash.seen) == fp;
              && active == (if byHand then old(active) else PickFor(profiles, s)) && manual == byHand
              && moved == (active != old(active))
      ensures old(Agrees()) ==> Agrees()
    {
      RestartsNewSource(fp);
      var same := flash.seen == fp;
      if same && manual {
        return false;
      }
      Remember(fp);
      var id := PickProfile(s);
      var was := active;
      if same && id == was {
        return false;
      }
      var _, _ := Select(id, false);
      return id != was;
    }

    method RestartAllowed() returns (ok: bool)
      requires Sound()
      modifies this`flash
      ensures Sound() && M() == AfterRestartAsked(old(M()))
      ensures ok <==> old(flash.restarts) < MAX_RESTARTS
      ensures old(Agrees()) ==> Agrees()
    {
      if flash.restarts >= MAX_RESTARTS {
        return false;
      }
      ghost var m := M();
      flash := flash.(restarts := flash.restarts + 1, source := CecPart(here));
      SameInEffect(table, m, M(), InEffect(values, over));
      return true;
    }

    method UptimeOk()
      requires Sound()
      modifies this`flash
      ensures Sound() && M() == old(M()).(restarts := 0)
      ensures old(Agrees()) ==> Agrees()
    {
      ghost var m := M();
      if flash.restarts != 0 {
        flash := flash.(restarts := 0);
      }
      SameInEffect(table, m, M(), InEffect(values, over));
    }
  }
}
