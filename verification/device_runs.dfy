// The task, the store and the console together, over runs with restarts. Models
// main/profile_auto.c over components/kvm_config.

module DeviceRuns {
  import opened Options
  import opened ProfileMatch
  import opened DeviceSettings
  import opened DeviceProfiles
  import opened ProfileChoice
  import opened ProfileAuto
  import opened SettingsStore
  import opened ProfileTask
  import opened StoreRuns

  // The event, with the boot values that are looked up at its end.
  function AsLookedUp(t: seq<Setting>, a: Auto, e: Event): Event
    requires ModelOk(t, a.m)
  {
    match e
    case Second(s, up, boots) =>
      TickKeepsOk(t, boots, a, s, up);
      Second(s, up, BootValues(t, Tick(boots, a, s, up).a.m))
    case _ => e
  }

  // What readers see does not decide which values are in effect.
  lemma BootsDecideNoValue(t: seq<Setting>, a: Auto, s: Seen, up: nat, x: seq<int>, y: seq<int>)
    requires ModelOk(t, a.m)
    ensures ModelOk(t, Tick(x, a, s, up).a.m) && ModelOk(t, Tick(y, a, s, up).a.m)
    ensures BootValues(t, Tick(x, a, s, up).a.m) == BootValues(t, Tick(y, a, s, up).a.m)
  {
    TickKeepsOk(t, x, a, s, up);
    TickKeepsOk(t, y, a, s, up);
    SameValuesEither(a, s, up, x, y);
    SameLookups(t, Tick(x, a, s, up).a.m, Tick(y, a, s, up).a.m);
  }

  lemma SameValuesEither(a: Auto, s: Seen, up: nat, x: seq<int>, y: seq<int>)
    ensures SameValues(Tick(x, a, s, up).a.m, Tick(y, a, s, up).a.m)
  {
    TickSteps(x, a, s, up);
    TickSteps(y, a, s, up);
  }

  lemma SameLookups(t: seq<Setting>, m: Model, n: Model)
    requires ModelOk(t, m) && ModelOk(t, n) && SameValues(m, n)
    ensures BootValues(t, m) == BootValues(t, n)
  {
    assert Values(t, m) == Values(t, n);
  }

  predicate SetHolds(t: seq<Setting>, m: Model, e: Event)
    requires ModelOk(t, m)
  {
    e.Api? ==> TakesHold(t, m, e.call)
  }

  // A second, and the restart it asks for.
  method Tock(task: Task, s: Seen, up: nat)
    requires task.Ready()
    modifies task, task.store
    ensures task.Ready()
    ensures old(task.store.Agrees()) ==>
              && task.store.Agrees()
              && task.A() == ProfileAuto.Next(task.store.table, task.store.presets, old(task.A()),
                                              AsLookedUp(task.store.table, old(task.A()), Second(s, up, [])))
  {
    ghost var a := task.A();
    var restart := task.Second(s, up);
    if task.store.Agrees() {
      BootsAgree(task.store);
      BootsDecideNoValue(task.store.table, a, s, up, task.Boots(), []);
    }
    if restart {
      task.Restart();
    }
  }

  /** One event. While readers see what is looked up, task and store do what the
      model says, and readers still see it if and only if what is set takes hold. */
  method Happen(task: Task, e: Event)
    requires task.Ready() && (e.Api? ==> NamesItsProfile(e.call))
    modifies task, task.store
    ensures task.Ready()
    ensures old(task.store.Agrees()) ==>
              && task.A() == ProfileAuto.Next(task.store.table, task.store.presets, old(task.A()),
                                              AsLookedUp(task.store.table, old(task.A()), e))
              && (task.store.Agrees() <==> SetHolds(task.store.table, old(task.A()).m, e))
  {
    match e
    case Second(s, up, boots) =>
      BootsDecideNoValue(task.store.table, task.A(), s, up, boots, []);
      Tock(task, s, up);
    case PowerCycle => task.Restart();
    case Api(call) =>
      if call.Boot? {
        task.Restart();
      } else {
        Do(task.store, call);
      }
  }

  function AllAsLookedUp(t: seq<Setting>, presets: seq<Preset>, a: Auto, es: seq<Event>): (r: seq<Event>)
    requires TableOk(t) && PresetsOk(presets) && ModelOk(t, a.m)
    decreases |es|
  {
    if es == [] then []
    else
      var e := AsLookedUp(t, a, es[0]);
      [e] + AllAsLookedUp(t, presets, ProfileAuto.Next(t, presets, a, e), es[1..])
  }

  predicate AllSetsHold(t: seq<Setting>, presets: seq<Preset>, a: Auto, es: seq<Event>)
    requires TableOk(t) && PresetsOk(presets) && ModelOk(t, a.m)
    decreases |es|
  {
    es != [] ==>
      && SetHolds(t, a.m, es[0])
      && AllSetsHold(t, presets, ProfileAuto.Next(t, presets, a, AsLookedUp(t, a, es[0])), es[1..])
  }

  // The run of the model that a device with these events goes through.
  function Life(t: seq<Setting>, presets: seq<Preset>, a: Auto, es: seq<Event>): (b: Auto)
    requires TableOk(t) && PresetsOk(presets) && ModelOk(t, a.m)
    ensures ModelOk(t, b.m)
    decreases |es|
  {
    if es == [] then a else Life(t, presets, ProfileAuto.Next(t, presets, a, AsLookedUp(t, a, es[0])), es[1..])
  }

  lemma {:induction false} LifeIsARun(t: seq<Setting>, presets: seq<Preset>, a: Auto, es: seq<Event>)
    requires TableOk(t) && PresetsOk(presets) && ModelOk(t, a.m)
    ensures Life(t, presets, a, es) == ProfileAuto.Run(t, presets, a, AllAsLookedUp(t, presets, a, es))
    decreases |es|
  {
    if es != [] {
      var e := AsLookedUp(t, a, es[0]);
      var b := ProfileAuto.Next(t, presets, a, e);
      LifeIsARun(t, presets, b, es[1..]);
      RunHead(t, presets, a, e, AllAsLookedUp(t, presets, b, es[1..]));
    }
  }

  /** Any run of seconds, power cycles and calls. Readers see what is looked up after
      each event, which agreed tells, if and only if all that is set takes hold; and
      then device and model have gone the same way. */
  method HappenAll(task: Task, es: seq<Event>) returns (ghost agreed: bool)
    requires task.Ready() && task.store.Agrees()
    requires forall e | e in es && e.Api? :: NamesItsProfile(e.call)
    modifies task, task.store
    ensures task.Ready()
    ensures var s := task.store;
            && (agreed <==> AllSetsHold(s.table, s.presets, old(task.A()), es))
            && (agreed ==> s.Agrees() && task.A() == ProfileAuto.Run(s.table, s.presets, old(task.A()),
                             AllAsLookedUp(s.table, s.presets, old(task.A()), es)))
  {
    ghost var t, presets, a := task.store.table, task.store.presets, task.A();
    LifeIsARun(t, presets, a, es);
    assert es[0..] == es;
    agreed := true;
    for k := 0 to |es|
      invariant task.Ready() && (agreed ==> task.store.Agrees())
      invariant AllSetsHold(t, presets, a, es) <==> agreed && AllSetsHold(t, presets, task.A(), es[k..])
      invariant agreed ==> Life(t, presets, a, es) == Life(t, presets, task.A(), es[k..])
    {
      assert es[k..][1..] == es[k + 1..];
      Happen(task, es[k]);
      agreed := agreed && task.store.Agrees();
    }
  }
}
