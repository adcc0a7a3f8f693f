// What a request makes of a profile, told in terms of its body alone, and what it
// is refused for. Models kvm_profiles_create and kvm_profiles_update in
// components/kvm_config/kvm_profiles.c.

module ProfileBodies {
  import opened Options
  import opened ProfileMatch
  import opened DeviceSettings
  import opened DeviceProfiles

  // A name of 1 to 31 characters, if one is given.
  predicate NameOk(body: seq<Pair>) {
    match Get(body, "name")
    case None => true
    case Some(j) => j.Str? && 1 <= |j.s| <= 31
  }

  // An object, each value of which is null or one that a profile may have.
  predicate SetOk(t: seq<Setting>, j: Json) {
    j.Object? && forall p | p in j.members :: p.value.Null? || ProfileValue(t, p.key, p.value).Some?
  }

  predicate GivenSetOk(t: seq<Setting>, body: seq<Pair>) {
    match Get(body, "set")
    case None => true
    case Some(j) => SetOk(t, j)
  }

  predicate UnsetOk(body: seq<Pair>) {
    match Get(body, "unset")
    case None => true
    case Some(j) => j.List?
  }

  predicate IsName(body: seq<Pair>, otherwise: string, name: string) {
    match Get(body, "name")
    case Some(Str(s)) => name == s
    case _ => name == otherwise
  }

  // The text of a member, cut to what is kept of it; "" if it is none.
  predicate IsTextIn(j: Json, key: string, most: nat, s: string) {
    match GetIn(j, key)
    case Some(Str(text)) => (|text| <= most ==> s == text) && (|text| > most ==> |s| == most && s <= text)
    case _ => s == ""
  }

  predicate IsRule(body: seq<Pair>, otherwise: Rule, r: Rule) {
    match Get(body, "match")
    case None => r == otherwise
    case Some(j) =>
      IsTextIn(j, "cecName", 15, r.cecName) && IsTextIn(j, "cecVendor", 7, r.cecVendor)
      && IsTextIn(j, "usbOs", 11, r.usbOs)
  }

  lemma {:induction false} CheckedExactly(t: seq<Setting>, src: seq<Pair>)
    ensures Checked(t, src).Some? <==> SetOk(t, Object(src))
  {
    if src != [] {
      CheckedExactly(t, src[1..]);
      assert src == [src[0]] + src[1..];
      if SetOk(t, Object(src)) {
        assert src[0] in src && SetOk(t, Object(src[1..]));
      } else if SetOk(t, Object(src[1..])) {
        var p :| p in src && !p.value.Null? && ProfileValue(t, p.key, p.value).None?;
        assert p == src[0] || p in src[1..];
      }
    }
  }

  lemma MergedExactly(t: seq<Setting>, dst: seq<Pair>, j: Json)
    ensures Merged(t, dst, j).Some? <==> SetOk(t, j)
  {
    if j.Object? {
      CheckedExactly(t, j.members);
    }
  }

  lemma NameExactly(body: seq<Pair>, otherwise: string)
    ensures NameFrom(body, otherwise).Some? <==> NameOk(body)
    ensures NameOk(body) ==> IsName(body, otherwise, NameFrom(body, otherwise).value)
  {
  }

  lemma RuleExactly(body: seq<Pair>, otherwise: Rule)
    ensures IsRule(body, otherwise, RuleIn(body, otherwise))
  {
  }

  // Where a new profile starts, by the body.
  datatype Start = Current | Empty | From(id: string)

  function StartOf(body: seq<Pair>): Start {
    match Get(body, "from")
    case Some(Str(s)) => if s == "current" then Current else if s == "empty" then Empty else From(s)
    case _ => Current
  }

  ghost predicate IsFirstPreset(presets: seq<Preset>, id: string, k: int) {
    0 <= k < |presets| && presets[k].id == id && forall i | 0 <= i < k :: presets[i].id != id
  }

  lemma {:induction false} PresetExactly(presets: seq<Preset>, id: string)
    ensures FindPreset(presets, id).None? <==> forall p | p in presets :: p.id != id
    ensures forall k | IsFirstPreset(presets, id, k) :: FindPreset(presets, id) == Some(presets[k])
  {
    if presets != [] && presets[0].id != id {
      PresetExactly(presets[1..], id);
      assert presets == [presets[0]] + presets[1..];
      forall k | IsFirstPreset(presets, id, k) ensures FindPreset(presets, id) == Some(presets[k]) {
        assert k > 0 && presets[1..][k - 1] == presets[k];
        assert forall i | 0 <= i < k - 1 :: presets[1..][i] == presets[i + 1];
        assert IsFirstPreset(presets[1..], id, k - 1);
      }
    }
  }

  predicate Full(m: Model) {
    forall id | 1 <= id < |m.profiles| :: m.profiles[id].used
  }

  /** A new profile is refused for exactly these reasons, in this order: the preset
      is not known; the preset's own values, the name or the values given are not
      ones a profile may have; all slots are taken. */
  lemma MakingIsRefusedExactly(t: seq<Setting>, presets: seq<Preset>, m: Model, body: seq<Pair>)
    requires ModelOk(t, m)
    ensures var made, start := Made(t, presets, m, body), StartOf(body);
            var preset := if start.From? then FindPreset(presets, start.id) else None;
            var bad := !NameOk(body) || !GivenSetOk(t, body) || (preset.Some? && !SetOk(t, Object(preset.value.own)));
            (made.Failure? <==> (start.From? && preset.None?) || bad || Full(m))
            && (made.Failure? ==>
                  made.err == if start.From? && preset.None? then NotFound else if bad then InvalidArg else NoMem)
  {
    var preset := if StartOf(body).From? then FindPreset(presets, StartOf(body).id) else None;
    NameExactly(body, if preset.Some? then preset.value.name else "New profile");
    if preset.Some? {
      MergedExactly(t, [], Object(preset.value.own));
    }
    var given := Get(body, "set");
    if given.Some? {
      MergedExactly(t, [], given.value);
    }
  }

  /** A new profile has the name and the rule of the body, else those of its preset,
      else "New profile" and no rule. */
  lemma MadeIsNamed(t: seq<Setting>, presets: seq<Preset>, m: Model, body: seq<Pair>)
    requires ModelOk(t, m) && Made(t, presets, m, body).Success?
    ensures var p, start := Made(t, presets, m, body).value, StartOf(body);
            var preset := if start.From? then FindPreset(presets, start.id) else None;
            && p.used
            && IsName(body, if preset.Some? then preset.value.name else "New profile", p.name)
            && IsRule(body, if preset.Some? then preset.value.rule else Rule("", "", ""), p.rule)
  {
    var preset := if StartOf(body).From? then FindPreset(presets, StartOf(body).id) else None;
    NameExactly(body, if preset.Some? then preset.value.name else "New profile");
    RuleExactly(body, if preset.Some? then preset.value.rule else NO_RULE);
  }

  /** Before the values of the body it has those of the current profile, of a preset,
      or none. */
  lemma MadeStartsFrom(t: seq<Setting>, presets: seq<Preset>, m: Model, body: seq<Pair>, key: string)
    requires ModelOk(t, m)
    ensures StartValue(t, presets, m, body, key) ==
              match StartOf(body)
              case Current => if m.active != 0 then Get(m.profiles[m.active].own, key) else None
              case Empty => None
              case From(id) =>
                var preset := FindPreset(presets, id);
                if preset.None? then None else ValueSet(t, FirstSet(preset.value.own, key), key)
  {
  }

  /** A change is refused exactly for a bad name, values a profile may not have, or
      an "unset" that is no list; else name and rule are those of the body, or as
      they were. */
  lemma ChangeIsRefusedExactly(t: seq<Setting>, p: Profile, body: seq<Pair>)
    ensures var c := Changed(t, p, body);
            && (c.Success? <==> NameOk(body) && GivenSetOk(t, body) && UnsetOk(body))
            && (c.Failure? ==> c.err == InvalidArg)
            && (c.Success? ==>
                  c.value.used == p.used && IsName(body, p.name, c.value.name) && IsRule(body, p.rule, c.value.rule))
  {
    NameExactly(body, p.name);
    RuleExactly(body, p.rule);
    var given := Get(body, "set");
    if given.Some? {
      MergedExactly(t, p.own, given.value);
    }
  }
}
