// The calls of the console over the settings store, one after another. Models
// how components/kvm_config/kvm_settings.c and kvm_profiles.c work together.

module StoreRuns {
  import opened Options
  import opened DeviceSettings
  import opened DeviceProfiles
  import opened SettingsStore

  // The body of an update names the profile.
  predicate NamesItsProfile(c: Call) {
    c.Update? ==> IdIn(c.body) == c.id
  }

  lemma SetIsNext(t: seq<Setting>, presets: seq<Preset>, m: Model, i: nat, v: Value, seen: seq<Value>)
    requires TableOk(t) && i < |t| && Shows(t, m, seen)
    ensures FindIndex(t, t[i].key) == i
    ensures SetError(t, t[i].key, v) == Ok <==> InRange(t[i], v)
    ensures InRange(t[i], v) ==> AfterSet(t, m, i, v, seen[i]) == Next(t, presets, m, SetValue(i, v))
    ensures !InRange(t[i], v) ==> Next(t, presets, m, SetValue(i, v)) == m
  {
    EveryRowIsOk(t, |t|);
    assert RowOk(t, i);
  }

  lemma SetAgreesExactly(t: seq<Setting>, m: Model, i: nat, v: Value, seen: seq<Value>)
    requires TableOk(t) && i < |t| && InRange(t[i], v) && Shows(t, m, seen)
    ensures Shows(t, AfterSet(t, m, i, v, seen[i]), seen[i := v]) <==> TakesHold(t, m, SetValue(i, v))
  {
    if seen[i] == v {
      assert seen[i := v] == seen;
    } else {
      PutKeepsOk(t, m, i, v);
      TakesHoldExactly(t, m, i, v);
      forall j | 0 <= j < |t| && j != i ensures Effective(t, Put(t, m, i, v), j) == seen[i := v][j] {
        PutMovesNoOther(t, m, i, v, j);
      }
    }
  }

  method Set(s: Store, i: nat, v: Value)
    requires s.Sound()
    modifies s
    ensures s.Sound()
    ensures old(s.Agrees()) ==>
              && s.M() == Next(s.table, s.presets, old(s.M()), SetValue(i, v))
              && (s.Agrees() <==> TakesHold(s.table, old(s.M()), SetValue(i, v)))
  {
    if i >= |s.table| {
      return;
    }
    var key := s.table[i].key;
    ghost var m, seen := s.M(), InEffect(s.values, s.over);
    if s.Agrees() {
      SetIsNext(s.table, s.presets, m, i, v, seen);
      if InRange(s.table[i], v) {
        SetAgreesExactly(s.table, m, i, v, seen);
      }
    }
    var err;
    if v.Number? {
      err := s.SetInt(key, v.n);
    } else {
      err := s.SetStr(key, v.s);
    }
  }

  /** One call. On a store whose readers see what is looked up it does what the
      model says, and readers still do if and only if what is set takes hold. */
  method Do(s: Store, c: Call)
    requires s.Sound() && NamesItsProfile(c)
    modifies s
    ensures s.Sound()
    ensures old(s.Agrees()) ==>
              && s.M() == Next(s.table, s.presets, old(s.M()), c)
              && (s.Agrees() <==> TakesHold(s.table, old(s.M()), c))
  {
    match c
    case SetValue(i, v) => Set(s, i, v);
    case Create(body) =>
      var _, _, _ := s.Create(Some(Object(body)));
    case Update(id, body) =>
      var _, _ := s.Update(Some(Object(body)));
    case Delete(id) =>
      var _, _ := s.Delete(id);
    case Select(id, byHand) =>
      var _, _ := s.Select(id, byHand);
    case Reset => s.Reset();
    case Boot => s.Boot();
    case Notice(fp) => s.NoteSeen(fp);
  }

  /** Any run of calls. Every reader sees what is looked up after each call, which
      agreed tells, if and only if all that is set takes hold; and then the store
      is what the model says. */
  method DoAll(s: Store, cs: seq<Call>) returns (ghost agreed: bool)
    requires s.Agrees() && forall c | c in cs :: NamesItsProfile(c)
    modifies s
    ensures s.Sound()
    ensures agreed <==> AllTakeHold(s.table, s.presets, old(s.M()), cs)
    ensures agreed ==> s.Agrees() && s.M() == Run(s.table, s.presets, old(s.M()), cs)
  {
    ghost var m := s.M();
    agreed := true;
    assert cs[0..] == cs;
    for k := 0 to |cs|
      invariant s.Sound() && (agreed ==> s.Agrees())
      invariant AllTakeHold(s.table, s.presets, m, cs) <==>
                  agreed && AllTakeHold(s.table, s.presets, s.M(), cs[k..])
      invariant agreed ==> Run(s.table, s.presets, m, cs) == Run(s.table, s.presets, s.M(), cs[k..])
    {
      assert cs[k..][1..] == cs[k + 1..];
      Do(s, cs[k]);
      agreed := agreed && s.Agrees();
    }
  }

  /** So over every run from a clean store in which no update gives a key two
      values. */
  method DoAllClean(s: Store, cs: seq<Call>)
    requires s.Agrees() && Clean(s.M()) && PresetsAskOnce(s.presets)
    requires forall c | c in cs :: AsksOnce(c) && NamesItsProfile(c)
    modifies s
    ensures s.Agrees() && Clean(s.M()) && s.M() == Run(s.table, s.presets, old(s.M()), cs)
  {
    AskingOnceTakesHold(s.table, s.presets, s.M(), cs);
    RunKeepsClean(s.table, s.presets, s.M(), cs);
    ghost var _ := DoAll(s, cs);
  }

  lemma {:induction false} RunKeepsClean(t: seq<Setting>, presets: seq<Preset>, m: Model, cs: seq<Call>)
    requires TableOk(t) && PresetsOk(presets) && PresetsAskOnce(presets) && ModelOk(t, m) && Clean(m)
    requires forall c | c in cs :: AsksOnce(c)
    ensures Clean(Run(t, presets, m, cs))
    decreases |cs|
  {
    if cs != [] {
      NextKeepsOk(t, presets, m, cs[0]);
      NextKeepsClean(t, presets, m, cs[0]);
      RunKeepsClean(t, presets, Next(t, presets, m, cs[0]), cs[1..]);
    }
  }
}
